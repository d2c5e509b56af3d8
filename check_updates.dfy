/**
 * scripts/automation/check-updates.js: which installed mods are asked about,
 * which answers become updates, and the `updates.json` record the run writes
 * (without its timestamp). The skip list and the scan of the mods directory
 * are inputs; the two API clients are the classes of `ModrinthApi` and
 * `FabricMetaApi`.
 */
module CheckUpdates {
  import opened Common
  import opened Seqs
  import opened Registry
  import opened PackwizParser
  import opened ModrinthApi
  import opened FabricMetaApi

  /** An element of `updates.mods`. */
  datatype ModUpdate = ModUpdate(
    name: string,
    projectId: string,
    currentVersion: string,
    currentVersionId: string,
    latestVersion: string,
    latestVersionId: string,
    changelog: string,
    updateUrl: string)

  /** `updates.fabricLoader` when it is not null. */
  datatype LoaderUpdate = LoaderUpdate(currentVersion: string, latestVersion: string, changelogUrl: string)

  /** `updates.json` without its timestamp. */
  datatype Updates = Updates(minecraftVersion: Option<string>, mods: seq<ModUpdate>, fabricLoader: Option<LoaderUpdate>)

  // ---------------------------------------------------------------------------
  // Which mods are checked

  predicate NotSkipped(skipList: seq<SkipEntry>, now: int, mod: ModMeta) {
    !IsModSkipped(mod.projectId, skipList, now)
  }

  /** `allMods.filter(mod => !parser.isModSkipped(mod.projectId, skipList))`. */
  function ModsToCheck(allMods: seq<ModMeta>, skipList: seq<SkipEntry>, now: int): (r: seq<ModMeta>)
    ensures forall m :: m in r <==> m in allMods && !IsModSkipped(m.projectId, skipList, now)
  {
    var p := (m: ModMeta) => NotSkipped(skipList, now, m);
    forall m ensures m in Filter(p, allMods) <==> m in allMods && p(m) {
      FilterMember(p, allMods, m);
    }
    Filter(p, allMods)
  }

  /** The checked mods keep the order of the scan: they sit at increasing positions of `allMods`. */
  lemma ModsToCheckKeepOrder(allMods: seq<ModMeta>, skipList: seq<SkipEntry>, now: int) returns (pos: seq<nat>)
    ensures |pos| == |ModsToCheck(allMods, skipList, now)|
    ensures forall k :: 0 <= k < |pos| ==> pos[k] < |allMods| && allMods[pos[k]] == ModsToCheck(allMods, skipList, now)[k]
    ensures forall k, l :: 0 <= k < l < |pos| ==> pos[k] < pos[l]
  {
    pos := FilterOrder((m: ModMeta) => NotSkipped(skipList, now, m), allMods);
  }

  /** The query for one mod: its ids, and the pack's Minecraft version as the only game version. */
  function QueryFor(mod: ModMeta, mcVersion: Option<string>): ModQuery {
    ModQuery(mod.name, mod.projectId, mod.currentVersionId, [Shown(mcVersion)])
  }

  function Queries(mods: seq<ModMeta>, mcVersion: Option<string>): (r: seq<ModQuery>)
    ensures |r| == |mods|
    ensures forall i :: 0 <= i < |mods| ==>
              && r[i].name == mods[i].name && r[i].projectId == mods[i].projectId
              && r[i].currentVersionId == mods[i].currentVersionId && r[i].gameVersions == [Shown(mcVersion)]
  {
    seq(|mods|, i requires 0 <= i < |mods| => QueryFor(mods[i], mcVersion))
  }

  // ---------------------------------------------------------------------------
  // Which answers are updates

  /** `m => m.hasUpdate`: an error entry has no `hasUpdate` and never passes. */
  predicate HasUpdate(m: ModResult) { m.Checked? && m.hasUpdate }

  function WithUpdates(results: seq<ModResult>): (r: seq<ModResult>)
    ensures forall m :: m in r <==> m in results && m.Checked? && m.hasUpdate
    ensures forall k :: 0 <= k < |r| ==> r[k].Checked? && r[k].hasUpdate
  {
    forall m ensures m in Filter(HasUpdate, results) <==> m in results && HasUpdate(m) {
      FilterMember(HasUpdate, results, m);
    }
    Filter(HasUpdate, results)
  }

  /** The element of `updates.mods` for a result with an update: it always names a different version. */
  function UpdateOf(m: ModResult): (r: ModUpdate)
    requires m.Checked? && m.hasUpdate && m.WellFormed()
    ensures r.name == m.modName && r.projectId == m.projectId
    ensures r.currentVersionId == m.current.id && r.currentVersion == m.current.versionNumber
    ensures r.latestVersionId == m.latest.value.id && r.latestVersion == m.latest.value.versionNumber
    ensures r.latestVersionId != r.currentVersionId
    ensures r.updateUrl == UpdateUrl(m.projectId, r.latestVersionId)
  {
    ModUpdate(m.modName, m.projectId, m.current.versionNumber, m.current.id,
              m.latest.value.versionNumber, m.latest.value.id, m.latest.value.changelog, m.updateUrl.value)
  }

  /** `modsWithUpdates.map(...)`: one element per result with an update, in order. */
  function ModUpdates(results: seq<ModResult>): (r: seq<ModUpdate>)
    requires forall m :: m in results ==> m.WellFormed()
    ensures |r| == |WithUpdates(results)|
    ensures forall k :: 0 <= k < |r| ==> r[k] == UpdateOf(WithUpdates(results)[k])
    ensures forall k :: 0 <= k < |r| ==> r[k].latestVersionId != r[k].currentVersionId
  {
    var passed := WithUpdates(results);
    assert forall k :: 0 <= k < |passed| ==> passed[k] in results;
    seq(|passed|, k requires 0 <= k < |passed| => UpdateOf(passed[k]))
  }

  /** `updates.fabricLoader`: null exactly when the loader check reports no update. */
  function FabricLoaderOf(check: LoaderCheck): (r: Option<LoaderUpdate>)
    ensures r.None? <==> !check.HasUpdate()
    ensures r.Some? ==> && r.value.currentVersion == check.currentVersion
                        && r.value.latestVersion == check.latestVersion
                        && r.value.changelogUrl == check.changelogUrl
  {
    if check.HasUpdate() then Some(LoaderUpdate(check.currentVersion, check.latestVersion, check.changelogUrl))
    else None
  }

  function UpdatesOf(mcVersion: Option<string>, results: seq<ModResult>, check: LoaderCheck): (r: Updates)
    requires forall m :: m in results ==> m.WellFormed()
    ensures r.minecraftVersion == mcVersion && r.mods == ModUpdates(results) && r.fabricLoader == FabricLoaderOf(check)
  {
    Updates(mcVersion, ModUpdates(results), FabricLoaderOf(check))
  }

  /** The summary's total: one per mod update, plus one for the loader. */
  function TotalUpdates(u: Updates): (r: nat)
    ensures r == 0 <==> u.mods == [] && u.fabricLoader.None?
    ensures r >= |u.mods|
  {
    |u.mods| + (if u.fabricLoader.Some? then 1 else 0)
  }

  /**
   * Every update names a mod that was checked: when result `i` belongs to mod
   * `i`, each reported project is one of the checked mods.
   */
  lemma {:induction false} UpdatesNameCheckedMods(mods: seq<ModMeta>, results: seq<ModResult>)
    requires |results| == |mods|
    requires forall i :: 0 <= i < |mods| ==> results[i].projectId == mods[i].projectId && results[i].WellFormed()
    ensures forall m :: m in results ==> m.WellFormed()
    ensures forall k :: 0 <= k < |ModUpdates(results)| ==>
              exists i :: 0 <= i < |mods| && mods[i].projectId == ModUpdates(results)[k].projectId
  {
    assert forall m :: m in results ==> m.WellFormed();
    var updates := ModUpdates(results);
    var passed := WithUpdates(results);
    forall k | 0 <= k < |updates|
      ensures exists i :: 0 <= i < |mods| && mods[i].projectId == updates[k].projectId
    {
      assert passed[k] in results;
      var i :| 0 <= i < |results| && results[i] == passed[k];
      assert mods[i].projectId == updates[k].projectId;
    }
  }

  // ---------------------------------------------------------------------------
  // The run

  /**
   * `main` after the configuration, the skip list and the caches are loaded:
   * `pack` is what `getPackMetadata` gave and `allMods` the scan. A
   * `pack.toml` that cannot be read, or a loader payload of the wrong shape,
   * throws and ends the run with exit code 1; otherwise the updates are
   * written and the exit code is 0, whether there are updates or not. Every
   * reported mod is an installed mod the skip list does not hold back.
   */
  method CheckForUpdates(modrinth: ModrinthAPI, fabric: FabricMetaAPI, pack: Result<PackMeta>, allMods: seq<ModMeta>,
                         skipList: seq<SkipEntry>, now: int, fetch: string -> Result<Data>,
                         metaFetch: string -> Result<Data>, newer: (string, string) -> bool)
    returns (updates: Option<Updates>, exitCode: int, ghost results: seq<ModResult>, ghost check: Result<LoaderCheck>)
    requires !modrinth.isProcessing
    modifies modrinth`cache, modrinth`requestQueue, modrinth`isProcessing, modrinth`settled, fabric`cache
    ensures exitCode == (if updates.Some? then 0 else 1)
    ensures exitCode == 1 <==> pack.Err? || check.Err?
    ensures pack.Ok? ==>
              var mc := Shown(pack.value.mcVersion);
              var (d, _) := LookupOr(old(fabric.cache), LoaderKey(mc), LoaderUrl(mc), LoaderList([]), metaFetch);
              && (StableLoaderOf(d).Err? ==> check.Err?)
              && (StableLoaderOf(d).Ok? ==>
                    check == Ok(LoaderCheckFor(Shown(pack.value.fabricVersion), StableLoaderOf(d).value, newer)))
    ensures pack.Ok? ==>
              && |results| == |ModsToCheck(allMods, skipList, now)|
              && forall i :: 0 <= i < |results| ==>
                   results[i].projectId == ModsToCheck(allMods, skipList, now)[i].projectId && results[i].WellFormed()
    ensures pack.Ok? && check.Ok? ==>
              (forall m :: m in results ==> m.WellFormed())
              && updates == Some(UpdatesOf(pack.value.mcVersion, results, check.value))
    ensures updates.Some? ==> |updates.value.mods| <= |ModsToCheck(allMods, skipList, now)|
    ensures updates.Some? ==> forall k :: 0 <= k < |updates.value.mods| ==>
              exists m :: m in allMods && !IsModSkipped(m.projectId, skipList, now)
                          && m.projectId == updates.value.mods[k].projectId
  {
    if pack.Err? {
      return None, 1, [], Err("pack.toml could not be read");
    }
    var meta := pack.value;
    var modsToCheck := ModsToCheck(allMods, skipList, now);
    var batch := modrinth.BatchGetLatestVersions(Queries(modsToCheck, meta.mcVersion), fetch);
    results := batch;
    UpdatesNameCheckedMods(modsToCheck, batch);
    var loader := fabric.CheckLoaderUpdate(Shown(meta.fabricVersion), Shown(meta.mcVersion), metaFetch, newer);
    check := loader;
    if loader.Err? {
      return None, 1, batch, check;
    }
    var u := UpdatesOf(meta.mcVersion, batch, loader.value);
    forall k | 0 <= k < |u.mods|
      ensures exists m :: m in allMods && !IsModSkipped(m.projectId, skipList, now) && m.projectId == u.mods[k].projectId
    {
      var i :| 0 <= i < |modsToCheck| && modsToCheck[i].projectId == u.mods[k].projectId;
      assert modsToCheck[i] in modsToCheck;
    }
    return Some(u), 0, batch, check;
  }
}
