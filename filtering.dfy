/**
 * The `filteredApps` memo: the developer filter or the tab narrows the app list, then a
 * case-insensitive search over name, description and category narrows it further.
 */
module Filtering {
  import opened Wrappers
  import opened JsText
  import opened Catalog
  import opened UrlCodec

  /** `r` can be obtained from `xs` by deleting elements (the order is kept). */
  predicate IsSubsequence<T(==)>(r: seq<T>, xs: seq<T>)
    decreases |xs|
  {
    if r == [] then true
    else if xs == [] then false
    else if r[0] == xs[0] then IsSubsequence(r[1..], xs[1..])
    else IsSubsequence(r, xs[1..])
  }

  /** `r` is `xs` with exactly the elements `keep` accepts, each as often as in `xs`, in order. */
  ghost predicate IsFilterOf<T(!new)>(r: seq<T>, xs: seq<T>, keep: T -> bool) {
    IsSubsequence(r, xs)
    && forall x :: multiset(r)[x] == if keep(x) then multiset(xs)[x] else 0
  }

  /** `xs.filter(keep)`. */
  function Filter<T(==,!new)>(xs: seq<T>, keep: T -> bool): (r: seq<T>)
    ensures forall i | 0 <= i < |r| :: keep(r[i])
    ensures IsFilterOf(r, xs, keep)
  {
    if xs == [] then []
    else
      var rest := Filter(xs[1..], keep);
      assert xs == [xs[0]] + xs[1..];
      if keep(xs[0]) then
        assert ([xs[0]] + rest)[1..] == rest;
        [xs[0]] + rest
      else
        assert rest != [] ==> rest[0] != xs[0];
        rest
  }

  lemma {:induction false} SubsequenceCounts<T>(r: seq<T>, xs: seq<T>)
    requires IsSubsequence(r, xs)
    ensures multiset(r) <= multiset(xs)
    decreases |xs|
  {
    if r != [] {
      assert xs == [xs[0]] + xs[1..];
      if r[0] == xs[0] {
        SubsequenceCounts(r[1..], xs[1..]);
        assert r == [r[0]] + r[1..];
      } else {
        SubsequenceCounts(r, xs[1..]);
      }
    }
  }

  /** "Exactly these elements, in order" singles out one sequence: the filter. */
  lemma {:induction false} FilterUnique<T(!new)>(r: seq<T>, xs: seq<T>, keep: T -> bool)
    requires IsFilterOf(r, xs, keep)
    ensures r == Filter(xs, keep)
    decreases |xs|
  {
    if xs == [] {
    } else {
      var x0 := xs[0];
      var t := xs[1..];
      assert xs == [x0] + t;
      if r != [] && r[0] == x0 {
        assert r == [x0] + r[1..];
        assert keep(x0) by {
          assert multiset(r)[x0] > 0;
        }
        forall x ensures multiset(r[1..])[x] == if keep(x) then multiset(t)[x] else 0 {
          assert multiset(r)[x] == multiset(r[1..])[x] + (if x == x0 then 1 else 0);
        }
        FilterUnique(r[1..], t, keep);
      } else {
        assert IsSubsequence(r, t);
        SubsequenceCounts(r, t);
        assert multiset(xs)[x0] == multiset(t)[x0] + 1;
        assert multiset(r)[x0] <= multiset(t)[x0];
        assert !keep(x0);
        forall x ensures multiset(r)[x] == if keep(x) then multiset(t)[x] else 0 {
          if keep(x) {
            assert x != x0;
          }
        }
        FilterUnique(r, t, keep);
      }
    }
  }

  lemma {:induction false} SubsequenceTransitive<T>(a: seq<T>, b: seq<T>, c: seq<T>)
    requires IsSubsequence(a, b) && IsSubsequence(b, c)
    ensures IsSubsequence(a, c)
    decreases |c|
  {
    if a != [] {
      if b[0] == c[0] {
        if a[0] == b[0] {
          SubsequenceTransitive(a[1..], b[1..], c[1..]);
        } else {
          SubsequenceTransitive(a, b[1..], c[1..]);
        }
      } else {
        SubsequenceTransitive(a, b, c[1..]);
        if a[0] == c[0] {
          SubsequenceDropHead(a, c[1..]);
        }
      }
    }
  }

  /** A subsequence of `xs` without its head is still one of `xs`. */
  lemma {:induction false} SubsequenceDropHead<T>(a: seq<T>, xs: seq<T>)
    requires a != [] && IsSubsequence(a, xs)
    ensures IsSubsequence(a[1..], xs)
    decreases |xs|
  {
    if a[0] != xs[0] {
      SubsequenceDropHead(a, xs[1..]);
    }
    if a[1..] != [] && a[1..][0] == xs[0] {
      SubsequenceDropHead(a[1..], xs[1..]);
      assert a[1..][1..] == a[2..];
    }
  }

  /** The three fields the search looks at (the developer is not one of them). */
  predicate SearchHit(a: App, lowerCaseSearch: string) {
    Includes(ToLower(a.name), lowerCaseSearch)
    || Includes(ToLower(a.description), lowerCaseSearch)
    || Includes(ToLower(a.category), lowerCaseSearch)
  }

  /** The first stage of `filteredApps`: the developer filter if set, else the tab. */
  function ByDeveloperOrTab(apps: seq<App>, tab: string, dev: Option<string>): seq<App> {
    if DevTruthy(dev) then
      var developer := dev.value;
      Filter(apps, (a: App) => a.developer == developer)
    else if tab != AllApps && tab != Featured then
      Filter(apps, (a: App) => a.category == tab)
    else if tab == Featured then
      Filter(apps, (a: App) => a.rating >= FeaturedRating)
    else
      apps
  }

  /** The second stage: keep the apps whose name, description or category holds the search. */
  function BySearch(apps: seq<App>, lowerCaseSearch: string): seq<App> {
    Filter(apps, (a: App) => SearchHit(a, lowerCaseSearch))
  }

  /** `filteredApps` for the loaded `apps` and the view state `s`. */
  function Visible(apps: seq<App>, s: UrlState): seq<App> {
    var filtered := ByDeveloperOrTab(apps, s.tab, s.dev);
    if Trim(s.search) != "" then BySearch(filtered, ToLower(s.search)) else filtered
  }

  /** Whether the first stage keeps `a`. */
  predicate OnDeveloperOrTab(tab: string, dev: Option<string>, a: App) {
    if DevTruthy(dev) then a.developer == dev.value
    else if tab == Featured then a.rating >= FeaturedRating
    else tab == AllApps || a.category == tab
  }

  /**
   * Whether the page lists `a` in state `s`, as one condition: the developer filter
   * if set, else the tab; and the search unless it is blank.
   */
  predicate Shown(s: UrlState, a: App) {
    OnDeveloperOrTab(s.tab, s.dev, a)
    && (Blank(s.search) || SearchHit(a, ToLower(s.search)))
  }

  lemma {:induction false} SubsequenceReflexive<T>(xs: seq<T>)
    ensures IsSubsequence(xs, xs)
    decreases |xs|
  {
    if xs != [] {
      SubsequenceReflexive(xs[1..]);
    }
  }

  lemma IsFilterOfSame<T(!new)>(r: seq<T>, xs: seq<T>, f: T -> bool, g: T -> bool)
    requires IsFilterOf(r, xs, f)
    requires forall x :: f(x) == g(x)
    ensures IsFilterOf(r, xs, g)
  {
  }

  /** Filtering twice is filtering once by both conditions. */
  lemma FilterOfFilter<T(!new)>(v: seq<T>, m: seq<T>, xs: seq<T>, f: T -> bool, g: T -> bool, h: T -> bool)
    requires IsFilterOf(m, xs, f) && IsFilterOf(v, m, g)
    requires forall x :: h(x) == (f(x) && g(x))
    ensures IsFilterOf(v, xs, h)
  {
    SubsequenceTransitive(v, m, xs);
  }

  lemma ByDeveloperOrTabKeeps(apps: seq<App>, tab: string, dev: Option<string>)
    ensures IsFilterOf(ByDeveloperOrTab(apps, tab, dev), apps, (a: App) => OnDeveloperOrTab(tab, dev, a))
  {
    if !DevTruthy(dev) && tab == AllApps {
      SubsequenceReflexive(apps);
    }
  }

  /** The second stage keeps exactly the apps the lowered search hits. */
  lemma BySearchKeeps(apps: seq<App>, lowerCaseSearch: string)
    ensures IsFilterOf(BySearch(apps, lowerCaseSearch), apps, (a: App) => SearchHit(a, lowerCaseSearch))
  {
  }

  /**
   * The visible list is the app list with exactly the apps `Shown` accepts, each as
   * often as it occurs, in the original order.
   */
  lemma VisibleIsFilterOfShown(apps: seq<App>, s: UrlState)
    ensures IsFilterOf(Visible(apps, s), apps, (a: App) => Shown(s, a))
  {
    var m := ByDeveloperOrTab(apps, s.tab, s.dev);
    var first := (a: App) => OnDeveloperOrTab(s.tab, s.dev, a);
    ByDeveloperOrTabKeeps(apps, s.tab, s.dev);
    TrimEmptyIffBlank(s.search);
    if Trim(s.search) != "" {
      var q := ToLower(s.search);
      BySearchKeeps(m, q);
      FilterOfFilter(BySearch(m, q), m, apps, first, (a: App) => SearchHit(a, q), (a: App) => Shown(s, a));
    } else {
      IsFilterOfSame(m, apps, first, (a: App) => Shown(s, a));
    }
  }

  /** Shown apps come from the list, in their order. */
  lemma VisibleIsSubsequence(apps: seq<App>, s: UrlState)
    ensures IsSubsequence(Visible(apps, s), apps)
    ensures forall a | a in Visible(apps, s) :: a in apps && Shown(s, a)
  {
    VisibleIsFilterOfShown(apps, s);
    forall a | a in Visible(apps, s) ensures a in apps && Shown(s, a) {
      assert multiset(Visible(apps, s))[a] > 0;
    }
  }

  /** With a developer set, the tab does not matter, whatever the search. */
  lemma DeveloperFilterIgnoresTab(apps: seq<App>, s: UrlState, tab: string)
    requires DevTruthy(s.dev)
    ensures Visible(apps, s.(tab := tab)) == Visible(apps, s)
  {
  }

  /** With a developer set and a blank search: exactly that developer's apps. */
  lemma DeveloperFilterKeepsDeveloper(apps: seq<App>, s: UrlState)
    requires DevTruthy(s.dev) && Blank(s.search)
    ensures IsFilterOf(Visible(apps, s), apps, (a: App) => a.developer == s.dev.value)
  {
    VisibleIsFilterOfShown(apps, s);
  }

  /** Featured with no developer and a blank search: exactly the apps rated 4.5 or more. */
  lemma FeaturedKeepsTopRated(apps: seq<App>, s: UrlState)
    requires !DevTruthy(s.dev) && s.tab == Featured && Blank(s.search)
    ensures IsFilterOf(Visible(apps, s), apps, (a: App) => a.rating >= FeaturedRating)
  {
    VisibleIsFilterOfShown(apps, s);
  }

  /** All Apps with no developer and a blank search: the whole list, unchanged. */
  lemma AllAppsKeepsEverything(apps: seq<App>, s: UrlState)
    requires !DevTruthy(s.dev) && s.tab == AllApps && Blank(s.search)
    ensures Visible(apps, s) == apps
  {
    TrimEmptyIffBlank(s.search);
  }

  /** Any other tab with no developer and a blank search: exactly that category. */
  lemma CategoryTabKeepsCategory(apps: seq<App>, s: UrlState)
    requires !DevTruthy(s.dev) && s.tab != Featured && s.tab != AllApps && Blank(s.search)
    ensures IsFilterOf(Visible(apps, s), apps, (a: App) => a.category == s.tab)
  {
    VisibleIsFilterOfShown(apps, s);
  }

  /** A search that is blank (empty or white space only) filters nothing. */
  lemma BlankSearchFiltersNothing(apps: seq<App>, s: UrlState, search: string)
    requires Blank(search)
    ensures Visible(apps, s.(search := search)) == Visible(apps, s.(search := ""))
  {
    TrimEmptyIffBlank(search);
  }

  /** Searches that agree once lowered show the same list ("PHOTO" and "photo"). */
  lemma SearchIgnoresCase(apps: seq<App>, s: UrlState, q1: string, q2: string)
    requires ToLower(q1) == ToLower(q2)
    ensures Visible(apps, s.(search := q1)) == Visible(apps, s.(search := q2))
  {
    TrimEmptyIffBlank(q1);
    TrimEmptyIffBlank(q2);
    LowerKeepsBlank(q1);
    LowerKeepsBlank(q2);
  }

  /** Without a developer filter, what an app's developer is does not matter to the list. */
  lemma SearchIgnoresDeveloperField(s: UrlState, a: App, developer: string)
    requires !DevTruthy(s.dev)
    ensures Shown(s, a.(developer := developer)) == Shown(s, a)
  {
  }
}
