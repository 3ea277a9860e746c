/** The `selectedApp` memo: the app the details view shows. */
module Selection {
  import opened Wrappers
  import opened Catalog
  import opened UrlCodec

  /**
   * `apps.find(a => a.id === appId) || null`: the first app whose id is the selected
   * one; none when no id is selected, when it is NaN, or when no app has it.
   */
  function SelectedApp(apps: seq<App>, appId: AppId): (r: Option<App>)
    ensures r.Some? <==> appId.Id? && exists i :: 0 <= i < |apps| && apps[i].id == appId.n
    ensures r.Some? ==> exists i :: 0 <= i < |apps| && apps[i] == r.value && r.value.id == appId.n
                                    && forall j | 0 <= j < i :: apps[j].id != appId.n
  {
    if apps == [] then None
    else if appId == Id(apps[0].id) then Some(apps[0])
    else SelectedApp(apps[1..], appId)
  }

  /** With unique ids, the selected app is the one carrying the id. */
  lemma SelectedAppUnique(apps: seq<App>, k: nat)
    requires k < |apps|
    requires forall i, j | 0 <= i < j < |apps| :: apps[i].id != apps[j].id
    ensures SelectedApp(apps, Id(apps[k].id)) == Some(apps[k])
  {
  }
}
