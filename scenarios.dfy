/** Worked cases of the resolver on a two-app list. */
module Scenarios {
  import opened Wrappers
  import opened JsText
  import opened Catalog
  import opened UrlCodec
  import opened Resolver
  import opened Filtering
  import opened Selection

  function FinanceApp(id: int, rating: real): App {
    App(id, "Ledger", "Finance", "", rating, "", "", "Acme", "1.0", [])
  }

  /** The Finance tab lists both Finance apps; Featured only the one rated 4.8. */
  lemma TabsOnTwoApps(s: UrlState)
    requires s.search == "" && s.dev.None?
    ensures var apps := [FinanceApp(1, 4.8), FinanceApp(2, 3.0)];
            Visible(apps, s.(tab := "Finance")) == apps
            && Visible(apps, s.(tab := Featured)) == [apps[0]]
  {
    var apps := [FinanceApp(1, 4.8), FinanceApp(2, 3.0)];
    assert apps[1..][1..] == [];
  }

  /** A click on the developer lists both of its apps, whatever was shown before. */
  lemma DeveloperClickOnTwoApps(s: UrlState)
    ensures var apps := [FinanceApp(1, 4.8), FinanceApp(2, 3.0)];
            Visible(apps, Apply(s, DeveloperClick("Acme"))) == apps
  {
    var apps := [FinanceApp(1, 4.8), FinanceApp(2, 3.0)];
    DeveloperClickResets(s, "Acme");
    assert apps[1..][1..] == [];
  }

  /** Selecting id 2 finds the second app; id 999 finds none. */
  lemma SelectionOnTwoApps()
    ensures var apps := [FinanceApp(1, 4.8), FinanceApp(2, 3.0)];
            SelectedApp(apps, Id(2)) == Some(apps[1]) && SelectedApp(apps, Id(999)).None?
  {
    var apps := [FinanceApp(1, 4.8), FinanceApp(2, 3.0)];
    assert apps[1..][1..] == [];
  }

  /** `?appId=12abc` selects the app with id 12. */
  lemma DecodeDigitsThenText()
    ensures Decode([("appId", "12abc")]).appId == Id(12)
  {
    assert IntToString(12) == "12";
    assert "12abc" == IntToString(12) + "abc";
    DecodeAppIdDigits([("appId", "12abc")], 12, "abc");
  }

  /** `?appId=abc` gives NaN, which selects nothing. */
  lemma DecodeTextOnly(apps: seq<App>)
    ensures Decode([("appId", "abc")]).appId == AppId.NaN
    ensures SelectedApp(apps, Decode([("appId", "abc")]).appId).None?
  {
    DecodeAppIdNoDigits([("appId", "abc")], "abc");
  }

  /** An unknown tab falls back to Featured, and an empty `dev` is kept as the empty string. */
  lemma DecodeUnknownTab()
    ensures Decode([("tab", "Games"), ("dev", "")]) == UrlState(Featured, "", NoId, Some(""))
  {
    assert "Games" !in Tabs;
  }
}
