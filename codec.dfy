/**
 * The address-bar side of the view state: the query as `URLSearchParams` sees it,
 * reading the state from it (`getUrlState`) and writing the minimal query back.
 * Percent-encoding is abstracted away: a query is its sequence of key/value pairs.
 */
module UrlCodec {
  import opened Wrappers
  import opened JsText
  import opened Catalog

  type Query = seq<(string, string)>

  /** `params.get(key)`: the value of the first pair with that key, or null. */
  function Get(q: Query, key: string): (r: Option<string>)
    ensures r.None? <==> forall i | 0 <= i < |q| :: q[i].0 != key
    ensures r.Some? ==> exists i :: 0 <= i < |q| && q[i] == (key, r.value)
                                    && forall j | 0 <= j < i :: q[j].0 != key
  {
    if q == [] then None
    else if q[0].0 == key then Some(q[0].1)
    else Get(q[1..], key)
  }

  /** `q` without the pairs whose key is `key`. */
  function RemoveKey(q: Query, key: string): (r: Query)
    ensures forall i | 0 <= i < |r| :: r[i].0 != key
  {
    if q == [] then []
    else if q[0].0 == key then RemoveKey(q[1..], key)
    else [q[0]] + RemoveKey(q[1..], key)
  }

  /**
   * `params.set(key, value)`: the first pair with that key takes the value and the
   * others go; when there is none the pair is appended.
   */
  function SetParam(q: Query, key: string, value: string): Query {
    if q == [] then [(key, value)]
    else if q[0].0 == key then [(key, value)] + RemoveKey(q[1..], key)
    else [q[0]] + SetParam(q[1..], key, value)
  }

  /** Setting a key the query does not hold yet appends it. */
  lemma {:induction false} SetFreshKeyAppends(q: Query, key: string, value: string)
    requires Get(q, key).None?
    ensures SetParam(q, key, value) == q + [(key, value)]
  {
    if q != [] {
      SetFreshKeyAppends(q[1..], key, value);
    }
  }

  /** A key the query does not hold reads as null. */
  lemma KeysAbsent(q: Query, key: string)
    requires forall i | 0 <= i < |q| :: q[i].0 != key
    ensures Get(q, key).None?
  {
  }

  /** Setting a key no pair carries appends the pair. */
  lemma SetAbsentKeyAppends(q: Query, key: string, value: string)
    requires forall i | 0 <= i < |q| :: q[i].0 != key
    ensures SetParam(q, key, value) == q + [(key, value)]
  {
    KeysAbsent(q, key);
    SetFreshKeyAppends(q, key, value);
  }

  /** `params.toString()` with the encoding left out: `k=v` pairs joined by `&`. */
  function Serialize(q: Query): (r: string)
    ensures r == [] <==> q == []
  {
    if q == [] then ""
    else if |q| == 1 then q[0].0 + "=" + q[0].1
    else q[0].0 + "=" + q[0].1 + "&" + Serialize(q[1..])
  }

  /** The new URL: the path, then `?` and the query only when the query is not empty. */
  function Href(pathname: string, q: Query): (r: string)
    ensures r == pathname <==> q == []
    ensures q != [] ==> r == pathname + "?" + Serialize(q)
  {
    var search := Serialize(q);
    pathname + (if search != "" then "?" + search else "")
  }

  /** A decoded `appId`: null, an integral number, or NaN. */
  datatype AppId = NoId | Id(n: int) | NaN

  /** The view state `{ tab, search, appId, dev }`. */
  datatype UrlState = UrlState(tab: string, search: string, appId: AppId, dev: Option<string>)

  /** What the page renders with on the server, where there is no window. */
  const ServerState: UrlState := UrlState(Featured, "", NoId, None)

  /** `params.get('tab') || 'Featured'`, kept only when it names a tab of the tab bar. */
  function DecodeTab(t: Option<string>): (r: string)
    ensures r in Tabs
    ensures r == if t.Some? && t.value in Tabs then t.value else Featured
  {
    var tab := if t.Some? && t.value != "" then t.value else Featured;
    if tab in Tabs then tab else Featured
  }

  /** `appId ? parseInt(appId, 10) : null`. */
  function DecodeAppId(a: Option<string>): (r: AppId)
    ensures r.NoId? <==> a in {None, Some("")}
  {
    if a.Some? && a.value != "" then FromNumber(ParseInt(a.value)) else NoId
  }

  /** `getUrlState` on a window whose location carries the query `q`. */
  function Decode(q: Query): (s: UrlState)
    ensures s.tab in Tabs
    ensures s.tab == (if Get(q, "tab").Some? && Get(q, "tab").value in Tabs
                      then Get(q, "tab").value else Featured)
    ensures s.search == Get(q, "search").GetOr("")
    ensures s.appId.NoId? <==> Get(q, "appId") in {None, Some("")}
    ensures s.dev == Get(q, "dev")
  {
    var search := Get(q, "search");
    var search := if search.Some? && search.value != "" then search.value else "";
    UrlState(DecodeTab(Get(q, "tab")), search, DecodeAppId(Get(q, "appId")), Get(q, "dev"))
  }

  function FromNumber(x: IntOrNaN): AppId {
    match x
    case Int(n) => Id(n)
    case NaN => AppId.NaN
  }

  /** `getUrlState`: the server branch gives the same defaults as an empty query. */
  function GetUrlState(location: Option<Query>): (s: UrlState)
    ensures location.None? ==> s == Decode([])
    ensures location.Some? ==> s == Decode(location.value)
  {
    match location
    case None => ServerState
    case Some(q) => Decode(q)
  }

  /** `appId` in the query reads as its integer, also when text follows the digits. */
  lemma DecodeAppIdDigits(q: Query, n: int, rest: string)
    requires Get(q, "appId") == Some(IntToString(n) + rest)
    requires rest == [] || !IsDigit(rest[0])
    ensures Decode(q).appId == Id(n)
  {
    ParseIntReadsDigitPrefix(n, rest);
  }

  /** A non-empty `appId` without any digit reads as NaN, not as absent. */
  lemma DecodeAppIdNoDigits(q: Query, a: string)
    requires Get(q, "appId") == Some(a) && a != ""
    requires forall i | 0 <= i < |a| :: !IsDigit(a[i])
    ensures Decode(q).appId == AppId.NaN
  {
    ParseIntNoDigits(a);
  }

  /** `if (x)` on the number `appId`: null, NaN and 0 are falsy. */
  predicate AppIdTruthy(a: AppId) {
    a.Id? && a.n != 0
  }

  /** `if (x)` on `dev`: null and the empty string are falsy. */
  predicate DevTruthy(d: Option<string>) {
    d.Some? && d.value != ""
  }

  /** Where each key may stand in an emitted query. */
  function KeyRank(key: string): nat {
    if key == "tab" then 0 else if key == "search" then 1 else if key == "appId" then 2 else 3
  }

  /**
   * The query `updateUrl` writes for a state: `tab` unless empty or Featured, `search`
   * unless empty, `appId` unless falsy, `dev` unless falsy, in that order.
   */
  function Encode(s: UrlState): (q: Query)
    ensures forall i | 0 <= i < |q| :: q[i].0 in ["tab", "search", "appId", "dev"] && q[i].1 != ""
    ensures forall i, j | 0 <= i < j < |q| :: KeyRank(q[i].0) < KeyRank(q[j].0)
    ensures q == [] <==> (s.tab in {"", Featured} && s.search == "" && !AppIdTruthy(s.appId) && !DevTruthy(s.dev))
  {
    (if s.tab != "" && s.tab != Featured then [("tab", s.tab)] else [])
    + (if s.search != "" then [("search", s.search)] else [])
    + (if AppIdTruthy(s.appId) then [("appId", IntToString(s.appId.n))] else [])
    + (if DevTruthy(s.dev) then [("dev", s.dev.value)] else [])
  }

  /**
   * The states the query represents faithfully: a tab of the tab bar, no id or a
   * non-zero one, no developer or a non-empty one.
   */
  predicate Canonical(s: UrlState) {
    s.tab in Tabs
    && (s.appId.NoId? || AppIdTruthy(s.appId))
    && (s.dev.None? || DevTruthy(s.dev))
  }

  /** What a state becomes once written to the address bar and read back. */
  function Normalize(s: UrlState): (r: UrlState)
    ensures Canonical(r)
    ensures Canonical(s) <==> r == s
  {
    UrlState(
      if s.tab in Tabs then s.tab else Featured,
      s.search,
      if AppIdTruthy(s.appId) then s.appId else NoId,
      if DevTruthy(s.dev) then s.dev else None)
  }

  lemma GetConcat(q1: Query, q2: Query, key: string)
    ensures Get(q1 + q2, key) == if Get(q1, key).Some? then Get(q1, key) else Get(q2, key)
  {
    if q1 != [] {
      GetConcat(q1[1..], q2, key);
      assert (q1 + q2)[0] == q1[0];
      assert (q1 + q2)[1..] == q1[1..] + q2;
    } else {
      assert q1 + q2 == q2;
    }
  }

  /** The value a key takes in the written query: that of the first part that holds it. */
  lemma GetEncodeKey(s: UrlState, key: string)
    ensures var qt: Query := if s.tab != "" && s.tab != Featured then [("tab", s.tab)] else [];
            var qs: Query := if s.search != "" then [("search", s.search)] else [];
            var qa: Query := if AppIdTruthy(s.appId) then [("appId", IntToString(s.appId.n))] else [];
            var qd: Query := if DevTruthy(s.dev) then [("dev", s.dev.value)] else [];
            Get(Encode(s), key) == if Get(qt, key).Some? then Get(qt, key)
              else if Get(qs, key).Some? then Get(qs, key)
              else if Get(qa, key).Some? then Get(qa, key)
              else Get(qd, key)
  {
    var qt: Query := if s.tab != "" && s.tab != Featured then [("tab", s.tab)] else [];
    var qs: Query := if s.search != "" then [("search", s.search)] else [];
    var qa: Query := if AppIdTruthy(s.appId) then [("appId", IntToString(s.appId.n))] else [];
    var qd: Query := if DevTruthy(s.dev) then [("dev", s.dev.value)] else [];
    GetConcat(qt + qs + qa, qd, key);
    GetConcat(qt + qs, qa, key);
    GetConcat(qt, qs, key);
  }

  lemma GetSingle(k: string, v: string, key: string)
    ensures Get([(k, v)], key) == if k == key then Some(v) else None
  {
    assert [(k, v)][1..] == [];
  }

  lemma GetEncodeTab(s: UrlState)
    ensures Get(Encode(s), "tab") == if s.tab != "" && s.tab != Featured then Some(s.tab) else None
  {
    GetSingle("tab", s.tab, "tab");
    GetSingle("search", s.search, "tab");
    GetSingle("appId", if s.appId.Id? then IntToString(s.appId.n) else "", "tab");
    GetSingle("dev", if s.dev.Some? then s.dev.value else "", "tab");
    GetEncodeKey(s, "tab");
  }

  lemma GetEncodeSearch(s: UrlState)
    ensures Get(Encode(s), "search") == if s.search != "" then Some(s.search) else None
  {
    GetSingle("tab", s.tab, "search");
    GetSingle("search", s.search, "search");
    GetSingle("appId", if s.appId.Id? then IntToString(s.appId.n) else "", "search");
    GetSingle("dev", if s.dev.Some? then s.dev.value else "", "search");
    GetEncodeKey(s, "search");
  }

  lemma GetEncodeAppId(s: UrlState)
    ensures Get(Encode(s), "appId") == if AppIdTruthy(s.appId) then Some(IntToString(s.appId.n)) else None
  {
    GetSingle("tab", s.tab, "appId");
    GetSingle("search", s.search, "appId");
    GetSingle("appId", if s.appId.Id? then IntToString(s.appId.n) else "", "appId");
    GetSingle("dev", if s.dev.Some? then s.dev.value else "", "appId");
    GetEncodeKey(s, "appId");
  }

  lemma GetEncodeDev(s: UrlState)
    ensures Get(Encode(s), "dev") == if DevTruthy(s.dev) then s.dev else None
  {
    GetSingle("tab", s.tab, "dev");
    GetSingle("search", s.search, "dev");
    GetSingle("appId", if s.appId.Id? then IntToString(s.appId.n) else "", "dev");
    GetSingle("dev", if s.dev.Some? then s.dev.value else "", "dev");
    GetEncodeKey(s, "dev");
  }

  /** The value each key takes in the written query. */
  lemma GetEncode(s: UrlState)
    ensures Get(Encode(s), "tab") == if s.tab != "" && s.tab != Featured then Some(s.tab) else None
    ensures Get(Encode(s), "search") == if s.search != "" then Some(s.search) else None
    ensures Get(Encode(s), "appId") == if AppIdTruthy(s.appId) then Some(IntToString(s.appId.n)) else None
    ensures Get(Encode(s), "dev") == if DevTruthy(s.dev) then s.dev else None
  {
    GetEncodeTab(s);
    GetEncodeSearch(s);
    GetEncodeAppId(s);
    GetEncodeDev(s);
  }

  lemma EmptyIsNoTab()
    ensures "" !in Tabs
  {
  }

  lemma DecodeEncodeTab(s: UrlState)
    ensures Decode(Encode(s)).tab == Normalize(s).tab
  {
    var g := Get(Encode(s), "tab");
    assert g == if s.tab != "" && s.tab != Featured then Some(s.tab) else None by {
      GetEncodeTab(s);
    }
    assert Decode(Encode(s)).tab == DecodeTab(g);
    if s.tab == "" {
      EmptyIsNoTab();
    }
  }

  lemma DecodeEncodeSearch(s: UrlState)
    ensures Decode(Encode(s)).search == s.search
  {
    GetEncodeSearch(s);
  }

  lemma DecodeEncodeAppId(s: UrlState)
    ensures Decode(Encode(s)).appId == Normalize(s).appId
  {
    var a := Get(Encode(s), "appId");
    assert a == if AppIdTruthy(s.appId) then Some(IntToString(s.appId.n)) else None by {
      GetEncodeAppId(s);
    }
    if AppIdTruthy(s.appId) {
      ParseIntToString(s.appId.n);
    }
  }

  lemma DecodeEncodeDev(s: UrlState)
    ensures Decode(Encode(s)).dev == Normalize(s).dev
  {
    GetEncodeDev(s);
  }

  /** Decoding the written query gives back the state, normalized. */
  lemma DecodeEncode(s: UrlState)
    ensures Decode(Encode(s)) == Normalize(s)
  {
    var d := Decode(Encode(s));
    var r := Normalize(s);
    DecodeEncodeTab(s);
    DecodeEncodeSearch(s);
    DecodeEncodeAppId(s);
    DecodeEncodeDev(s);
    assert d == UrlState(d.tab, d.search, d.appId, d.dev);
    assert r == UrlState(r.tab, r.search, r.appId, r.dev);
  }

  /**
   * The round trip: a canonical state survives being written to the address bar and
   * read back.
   */
  lemma RoundTrip(s: UrlState)
    requires Canonical(s)
    ensures Decode(Encode(s)) == s
  {
    DecodeEncode(s);
  }

  /** An app whose id is 0 is never written to the address bar: 0 is falsy. */
  lemma ZeroIdIsNotWritten(s: UrlState)
    requires s.appId == Id(0)
    ensures Get(Encode(s), "appId").None?
    ensures Decode(Encode(s)).appId == NoId
  {
    DecodeEncode(s);
  }
}
