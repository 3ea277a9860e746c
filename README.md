# App Market view-state resolver, in Dafny

This project models the view-state resolver of the App Market page (`app/page.tsx`). The
page keeps its filter state in the address bar. That state is the active tab, the search
text, the selected developer and the selected app id. The resolver does five things:

- **Decode** (`getUrlState`) reads the state from the query. A missing, empty or unknown
  tab falls back to Featured. `appId` goes through `parseInt`. `dev` is taken verbatim.
- **Merge and encode** (`updateUrl`) lays a partial patch over the state read from the
  address bar. It then applies three conflict rules in order. Finally it writes back the
  minimal query, with keys in the order tab, search, appId, dev.
- **Visible set** (`filteredApps`) narrows the app list. A developer filter wins over the
  tab. Otherwise Featured (rating at least 4.5), All Apps or a category applies. Then a
  case-insensitive search runs over name, description and category.
- **Selection** (`selectedApp`) is the first app whose id equals the selected id.
- **Download link** (`handleInstallClick`) sanitizes the app name and builds the URL.

Modules, one per part of the page:

- `JsText` (`jstext.dfy`) holds the JavaScript library behaviour the code relies on:
  `trim`, ASCII `toLowerCase`, `includes`, integer `toString` and `parseInt(s, 10)`.
- `Catalog` (`catalog.dfy`) holds the app record and the `TABS` constant.
- `UrlCodec` (`codec.dfy`) holds the query as a sequence of key/value pairs, `params.get`,
  `params.set`, Decode, Encode and the round trip between them.
- `Resolver` (`resolver.dfy`) holds the merge, the conflict rules, and the six patches
  the page sends, as named intents.
- `Filtering` (`filtering.dfy`) holds `filteredApps` and its one-condition description
  `Shown`.
- `Selection` (`selection.dfy`) holds `selectedApp`.
- `Download` (`download.dfy`) holds the name sanitizer and the download URL.
- `Page` (`home.dfy`) holds the `Home` class. Its fields are the address bar (`query`,
  `href`), the React state (`state`) and the loaded `apps`. Its methods are `updateUrl`,
  the popstate listener and `setApps`.
- `Scenarios` (`scenarios.dfy`) holds worked cases on a two-app list.

The model follows the code as written:

- A non-numeric `appId` decodes to NaN, not to "absent". NaN selects nothing, and the
  next write of the query drops it.
- Selecting an app keeps the search and the developer. Back clears the developer.
- Search typing always clears the developer. It clears the selected app only when the
  text is non-empty.
- The search does not look at the developer field. The lowered search text is not
  trimmed; only the emptiness test trims.
- The developer filter and a search can both hold when the address bar says so. Then
  both narrow the list.

## Model

| member | source | states |
|---|---|---|
| `JsText.TrimEmptyIffBlank` | app/page.tsx:383 | `search.trim()` is empty exactly when every character of the search is ECMAScript white space |
| `JsText.LowerKeepsBlank` | app/page.tsx:383-384 | lowering the search does not change whether it is blank |
| `JsText.IncludesIffOccurs` | app/page.tsx:386-388 | `includes` holds exactly when the needle occurs at some position of the text |
| `JsText.IntToString` | app/page.tsx:319 | an integer's text is non-empty, starts with `-` exactly when the integer is negative, is digits otherwise, and holds no `/` |
| `JsText.NatToStringValue` | app/page.tsx:319 | the digits `toString` writes denote the number |
| `JsText.ParseIntReadsDigitPrefix` | app/page.tsx:290 | `parseInt` gives back the integer `toString` wrote, also when non-digit text follows it (`"12abc"` gives 12) |
| `JsText.ParseIntToString` | app/page.tsx:290 | `parseInt` of an integer's text gives the integer back |
| `JsText.ParseIntNoDigits` | app/page.tsx:290 | text with no digit parses to NaN |
| `UrlCodec.Get` | app/page.tsx:282-285 | `params.get` is null exactly when no pair has the key, else the value of the first pair with it |
| `UrlCodec.SetFreshKeyAppends` | app/page.tsx:317-320 | `params.set` of a key the query does not hold appends the pair |
| `UrlCodec.Serialize` | app/page.tsx:322 | the serialized query is empty exactly when there are no pairs |
| `UrlCodec.Href` | app/page.tsx:322 | the new URL is the bare path exactly when the query is empty; otherwise `?` and the query follow |
| `UrlCodec.DecodeTab` | app/page.tsx:282-288 | the decoded tab is always in TABS: the query's tab when it is one, else Featured |
| `UrlCodec.DecodeAppId` | app/page.tsx:290 | the decoded id is null exactly when `appId` is missing or empty |
| `UrlCodec.Decode` | app/page.tsx:281-292 | the tab is always in TABS and is the query's tab when that is in TABS, else Featured; search defaults to empty; appId is null exactly when missing or empty; dev is passed through |
| `UrlCodec.GetUrlState` | app/page.tsx:278-279 | the no-window branch equals decoding an empty query |
| `UrlCodec.DecodeAppIdDigits` | app/page.tsx:290 | an `appId` of an integer's text, followed by non-digits or nothing, decodes to that integer |
| `UrlCodec.DecodeAppIdNoDigits` | app/page.tsx:290 | a non-empty `appId` without digits decodes to NaN, not to null |
| `UrlCodec.Encode` | app/page.tsx:316-320 | the written query has only tab, search, appId and dev keys, in that order, none with an empty value; it is empty exactly when every field holds its default |
| `UrlCodec.GetEncode` | app/page.tsx:316-320 | in the written query, tab is present unless empty or Featured, search unless empty, appId unless falsy, dev unless falsy |
| `UrlCodec.Normalize` | app/page.tsx:288-291 | what a state becomes after a write and a read is canonical, and equals the state exactly when the state is canonical |
| `UrlCodec.DecodeEncode` | app/page.tsx:282-320 | decoding the written query gives the normalized state, for every state |
| `UrlCodec.RoundTrip` | app/page.tsx:282-320 | a state with a TABS tab, no or a non-zero id, and no or a non-empty developer survives a write and a read unchanged |
| `UrlCodec.ZeroIdIsNotWritten` | app/page.tsx:319 | an app id of 0 is never written to the query and reads back as null |
| `Resolver.Overlay` | app/page.tsx:299-300 | fields the patch leaves out keep their current value; a field the patch holds replaces it (a null `appId` or `dev` clears it, a value sets it) |
| `Resolver.Resolve` | app/page.tsx:303-313 | an explicit null id clears dev and the id; a truthy dev forces All Apps with no search and no id; a truthy tab or search clears the id; the empty patch changes nothing |
| `Resolver.DeveloperClickResets` | app/page.tsx:306-310 | a click on a non-empty developer gives All Apps, no search, no id and that developer, whatever the prior state |
| `Resolver.DeveloperClickEmptyName` | app/page.tsx:306 | a click on an empty developer name stores the name and triggers no rule |
| `Resolver.SearchTypingClearsDeveloper` | app/page.tsx:463 | typing stores the text and clears the developer; it clears the id only for non-empty text; the tab stays |
| `Resolver.TabClickShowsTab` | app/page.tsx:475 | a tab click gives that tab with no search, no id and no developer |
| `Resolver.ClearDeveloperShowsAllApps` | app/page.tsx:495 | clearing the developer gives All Apps with no id, and keeps the search |
| `Resolver.SelectAppChangesOnlyId` | app/page.tsx:527 | selecting an app changes only the id; search and developer stay |
| `Resolver.BackClearsAppAndDeveloper` | app/page.tsx:543 | back clears the id and the developer and keeps tab and search |
| `Resolver.ApplyKeepsCanonical` | app/page.tsx:298-320 | every patch the page sends, with arguments the address bar can carry (a TABS tab, a non-empty developer, a non-zero id), keeps a canonical state canonical |
| `Resolver.ApplyMakesModesExclusive` | app/page.tsx:303-313 | after any intent but select-app, a developer filter and a search text never hold together; select-app keeps that if it held |
| `Resolver.ApplyThenReload` | app/page.tsx:298-325 | after such a patch, with arguments the address bar can carry, reading the written query back gives exactly the merged state |
| `Resolver.SelectZeroIsLostOnReload` | app/page.tsx:527 | selecting an app with id 0 stores id 0, which the written query does not read back, because 0 is falsy at line 319 |
| `Resolver.EmptyDeveloperIsLostOnReload` | app/page.tsx:423 | a click on an empty developer name stores `""`, which the written query does not read back |
| `Filtering.Filter` | app/page.tsx:372 | `filter` keeps, in order and with their multiplicity, exactly the elements the condition accepts |
| `Filtering.FilterUnique` | app/page.tsx:372 | a sequence that keeps exactly the accepted elements in order is the filter |
| `Filtering.ByDeveloperOrTabKeeps` | app/page.tsx:370-380 | the first stage keeps exactly the developer's apps if a developer is set, else the Featured, All Apps or category apps |
| `Filtering.BySearchKeeps` | app/page.tsx:383-390 | the search stage keeps exactly the apps whose lowered name, description or category holds the lowered search |
| `Filtering.VisibleIsFilterOfShown` | app/page.tsx:365-393 | the visible list is the app list with exactly the apps `Shown` accepts, in order |
| `Filtering.VisibleIsSubsequence` | app/page.tsx:365-393 | every visible app is in the list and shown, and the list order is kept |
| `Filtering.DeveloperFilterIgnoresTab` | app/page.tsx:371-380 | with a developer set, the list does not depend on the tab, whatever the search |
| `Filtering.DeveloperFilterKeepsDeveloper` | app/page.tsx:371-373 | with a developer and a blank search, the list is exactly that developer's apps, in order |
| `Filtering.FeaturedKeepsTopRated` | app/page.tsx:377-379 | Featured keeps exactly the apps rated 4.5 or more |
| `Filtering.AllAppsKeepsEverything` | app/page.tsx:374-380 | All Apps with a blank search lists every app, unchanged |
| `Filtering.CategoryTabKeepsCategory` | app/page.tsx:375-376 | any other tab keeps exactly the apps of that category |
| `Filtering.BlankSearchFiltersNothing` | app/page.tsx:383 | a blank or white-space-only search lists what the empty search lists |
| `Filtering.SearchIgnoresCase` | app/page.tsx:383-389 | two searches that agree once lowered list the same apps |
| `Filtering.SearchIgnoresDeveloperField` | app/page.tsx:385-389 | without a developer filter, an app's developer field does not affect whether it is shown |
| `Selection.SelectedApp` | app/page.tsx:396-398 | some app is selected exactly when the id is an integer that some app carries, and then it is the first such app |
| `Selection.SelectedAppUnique` | app/page.tsx:396-398 | with unique ids, selecting an app's id selects that app |
| `Download.DropNonNameChars` | app/page.tsx:153 | what remains is made of `[A-Za-z0-9_-]`, is no longer than the input, keeps every name character as often as the input has it, and is the input itself when the input has only name characters |
| `Download.SanitizeNameIsOnePass` | app/page.tsx:153 | the two replacements act as one pass: spaces become `_`, name characters stay in order, all else is dropped |
| `Download.SanitizeNameIsSafe` | app/page.tsx:153 | the sanitized name holds only `[A-Za-z0-9_-]` and is no longer than the name |
| `Download.SanitizeKeepsNameChars` | app/page.tsx:153 | a name already made of name characters is left as it is |
| `Download.SanitizeIdempotent` | app/page.tsx:153 | sanitizing twice is sanitizing once |
| `Download.DownloadUrl` | app/page.tsx:154 | the link starts with the fixed host; then comes the id's text, which parses back to the id; then the only slash after the host; then the sanitized name and `.app` |
| `Download.DownloadUrlSplits` | app/page.tsx:154 | the same split, proved on the host followed by the download path |
| `Download.NamePartHasNoSlash` | app/page.tsx:154 | the name part of the link holds no slash |
| `Download.DownloadPathSplits` | app/page.tsx:154 | the path has exactly one slash; before it is the id's text, which parses back to the id; after it is the sanitized name and `.app` |
| `Page.MergeState` | app/page.tsx:299-313 | the step-by-step merge gives the resolved state |
| `Page.BuildParams` | app/page.tsx:316-320 | the successive `set` calls build exactly the encoded query |
| `Page.Home.constructor` | app/page.tsx:295 | on mount the state is decoded from the address bar and no app is loaded |
| `Page.Home.UpdateUrl` | app/page.tsx:298-325 | the new state is the patch resolved over the decoded address bar; the new query is its encoding; the new URL is built from the query; the apps stay |
| `Page.Home.Dispatch` | app/page.tsx:298-325 | a page intent applied to a synced state gives the intent's state, writes its encoding as the query and the matching URL, and leaves the address bar and the state in step |
| `Page.Home.HandleDeveloperClick` | app/page.tsx:422-424 | a developer click gives the click's patch resolved over the decoded address bar, which for a non-empty name is All Apps, no search, no id and that developer; the query and URL are written from it |
| `Page.Home.PopState` | app/page.tsx:328-334 | back/forward replaces the whole state with the decoded query |
| `Page.Home.AppsLoaded` | app/page.tsx:352 | loading sets the app list and changes nothing else |
| `Page.Home.FilteredApps` | app/page.tsx:365-393 | the listed apps are a subsequence of the loaded apps |
| `Page.Home.Selected` | app/page.tsx:396-398 | a selected app is a loaded app carrying the selected id |
| `Scenarios.TabsOnTwoApps` | app/page.tsx:374-380 | for two Finance apps rated 4.8 and 3.0, the Finance tab lists both and Featured lists the first |
| `Scenarios.DeveloperClickOnTwoApps` | app/page.tsx:422-424 | a click on their developer lists both, whatever was shown before |
| `Scenarios.SelectionOnTwoApps` | app/page.tsx:396-398 | id 2 selects the second app; id 999 selects none |
| `Scenarios.DecodeDigitsThenText` | app/page.tsx:290 | `?appId=12abc` selects id 12 |
| `Scenarios.DecodeTextOnly` | app/page.tsx:290 | `?appId=abc` gives NaN, which selects nothing |
| `Scenarios.DecodeUnknownTab` | app/page.tsx:282-291 | an unknown tab reads as Featured, and `dev=` reads as the empty developer |

## Left out

- Rendering: JSX, styling, transitions, image fallbacks and the zoom modal (app/page.tsx:51-127, 160-263, and the markup of 429-550 apart from its `updateUrl` calls) are UI only.
- Data loading: `fetch`, the loading and error flags and `document.title` (app/page.tsx:339-362) are network and DOM I/O. Only the effect of `setApps(data)` is modelled, as `Page.Home.AppsLoaded`.
- Sharing: `handleShare` (app/page.tsx:403-420) is clipboard and timer I/O.
- Browser APIs: `window.open`, `console.log` and the history stack kept by `pushState` are not modelled. The model keeps only the new address (`href`, `query`). The popstate listener takes the restored query as a parameter, because the browser chooses it.
- Percent-encoding: `URLSearchParams` encoding is abstracted away. A query is its list of key/value pairs, and `Serialize` joins them unencoded.
- `JsText.ParseInt`: only leading white space, a sign and a decimal digit prefix are modelled. The loss of precision beyond 2^53 is not modelled. Neither is the difference between -0 and 0; both are falsy and both select the same app.
- `JsText.IntToString`: the exponent form JavaScript uses from 1e21 on is not modelled.
- `JsText.ToLower`: only ASCII letters are lowered, not full Unicode `toLowerCase`.
- App ids are integers, and the select-app patch carries an integer. Fractional ids are not modelled. Ratings are exact reals, not floating-point numbers.
- Patch fields `tab` and `search` cannot be null, as in the page's TypeScript types.
- `StarRating` (app/page.tsx:24-48) computes display counts only.
- app/index.js is not part of this model. It is an earlier fetch-and-render page with no state logic of its own.
- `Page.Home.FilteredApps`: its contract says only that the list is a subsequence of the loaded apps. The full characterization is `Filtering.VisibleIsFilterOfShown`.
- `Page.Home.Selected`: its contract says only that a selected app is loaded and carries the id. The first-match rule is `Selection.SelectedApp`.
- `Resolver.UiArgs`: the round-trip lemmas `Resolver.ApplyKeepsCanonical`, `Resolver.ApplyThenReload` and `Page.Home.Dispatch` cover only arguments the address bar can carry. The page can also send id 0 (line 527) or an empty developer (line 423) when the loaded list holds such an app. Then the state it shows and the state the address bar reads back differ, as `Resolver.SelectZeroIsLostOnReload` and `Resolver.EmptyDeveloperIsLostOnReload` show.
- `Page.Home.Dispatch`: it needs a synced state. From an address bar holding NaN, 0 or an empty `dev`, the React state can differ from what the query reads back as. `UrlCodec.DecodeEncode` states exactly how.
