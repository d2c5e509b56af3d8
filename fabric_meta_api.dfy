/**
 * The Fabric Meta client of scripts/automation/utils/fabric-meta-api.js: the
 * same TTL disk cache as the Modrinth client, cache-or-fetch lookups that fall
 * back to an empty list when the request fails, and the selection of the
 * newest stable loader build and the newest stable game versions. The version
 * comparison `semver.gt` is a parameter `newer`.
 */
module FabricMetaApi {
  import opened Common
  import opened Text
  import opened Seqs
  import opened Registry
  import opened CacheStore

  const FabricMetaBase: string := "https://meta.fabricmc.net/v2"
  const NoStableLoader: string := "No stable loader found"
  const NotAList: string := "versions.filter is not a function"

  function LoaderKey(minecraftVersion: string): string { "loader:" + minecraftVersion }
  function LoaderUrl(minecraftVersion: string): string { FabricMetaBase + "/versions/loader/" + minecraftVersion }
  const GamesKey: string := "minecraft:versions"
  const GamesUrl: string := FabricMetaBase + "/versions/game"

  /**
   * Cache-or-fetch as `getLoaderVersions` and `getMinecraftVersions` do it:
   * the value returned and the cache afterwards. A failed request yields
   * `fallback` (an empty list) and leaves the cache as it was.
   */
  function LookupOr(cache: map<string, Data>, key: string, url: string, fallback: Data, fetch: string -> Result<Data>)
    : (r: (Data, map<string, Data>))
    ensures CachedValue(cache, key).Some? ==> r == (cache[key], cache)
    ensures CachedValue(cache, key).None? && fetch(url).Ok? ==> r == (fetch(url).value, cache[key := fetch(url).value])
    ensures CachedValue(cache, key).None? && fetch(url).Err? ==> r == (fallback, cache)
  {
    match CachedValue(cache, key)
    case Some(d) => (d, cache)
    case None =>
      match fetch(url)
      case Ok(d) => (d, cache[key := d])
      case Err(_) => (fallback, cache)
  }

  /** A loader version counts as stable when it mentions none of `beta`, `alpha`, `rc`. */
  predicate IsStableVersion(version: string) {
    !Contains(version, "beta") && !Contains(version, "alpha") && !Contains(version, "rc")
  }

  predicate IsStableLoader(e: LoaderEntry) { IsStableVersion(e.version) }

  /**
   * `getLatestStableLoader` after the fetch: the first stable build in the order
   * Fabric Meta lists them (newest first), `null` when there is none.
   */
  function LatestStableLoader(entries: seq<LoaderEntry>): (r: Option<LoaderEntry>)
    ensures r.None? <==> forall i :: 0 <= i < |entries| ==> !IsStableVersion(entries[i].version)
    ensures r.Some? ==> exists i :: 0 <= i < |entries| && entries[i] == r.value
                          && forall j :: 0 <= j < i ==> !IsStableVersion(entries[j].version)
    ensures r.Some? ==> !Contains(r.value.version, "beta") && !Contains(r.value.version, "alpha")
                        && !Contains(r.value.version, "rc")
  {
    First(IsStableLoader, entries)
  }

  /** `getLatestStableLoader` on the payload `getLoaderVersions` returned; a payload that is not a list throws. */
  function StableLoaderOf(d: Data): (r: Result<Option<LoaderEntry>>)
    ensures d.LoaderList? ==> r == Ok(LatestStableLoader(d.entries))
    ensures !d.LoaderList? ==> r.Err?
  {
    match d
    case LoaderList(es) => Ok(LatestStableLoader(es))
    case _ => Err(NotAList)
  }

  /** The object `checkLoaderUpdate` returns. */
  datatype LoaderCheck =
    | NoLoader(currentVersion: string, error: string)
    | LoaderFound(hasUpdate: bool, currentVersion: string, latestVersion: string, build: int, maven: string,
                  changelogUrl: string)
  {
    function HasUpdate(): bool { LoaderFound? && hasUpdate }
  }

  function ChangelogUrl(version: string): string { "https://fabricmc.net/wiki/changelog/loader/" + version }

  /**
   * `checkLoaderUpdate` given the selected stable build: with none, no update
   * and the "No stable loader found" error; otherwise an update exactly when
   * the build's version is newer than the current one.
   */
  function LoaderCheckFor(current: string, latest: Option<LoaderEntry>, newer: (string, string) -> bool)
    : (r: LoaderCheck)
    ensures r.currentVersion == current
    ensures latest.None? <==> r.NoLoader?
    ensures r.NoLoader? ==> !r.HasUpdate() && r.error == NoStableLoader
    ensures r.LoaderFound? ==> r.latestVersion == latest.value.version && r.build == latest.value.build
                               && r.maven == latest.value.maven && r.changelogUrl == ChangelogUrl(r.latestVersion)
    ensures r.HasUpdate() <==> latest.Some? && newer(latest.value.version, current)
  {
    match latest
    case None => NoLoader(current, NoStableLoader)
    case Some(e) =>
      LoaderFound(newer(e.version, current), current, e.version, e.build, e.maven, ChangelogUrl(e.version))
  }

  /** `semver.gt` behaves as a strict order: irreflexive and transitive. */
  ghost predicate StrictOrder(newer: (string, string) -> bool) {
    && (forall a :: !newer(a, a))
    && (forall a, b, c :: newer(a, b) && newer(b, c) ==> newer(a, c))
  }

  /**
   * Under a strict order the pack never "updates" to the version it has, nor
   * to an older one: an update names a different version, and is never
   * reported in both directions.
   */
  lemma LoaderUpdateIsStrict(current: string, latest: Option<LoaderEntry>, newer: (string, string) -> bool)
    requires StrictOrder(newer)
    ensures LoaderCheckFor(current, latest, newer).HasUpdate() ==>
              latest.value.version != current && !newer(current, latest.value.version)
  {
    if LoaderCheckFor(current, latest, newer).HasUpdate() {
      var v := latest.value.version;
      assert newer(v, current);
      assert newer(current, v) ==> newer(v, v);
    }
  }

  predicate IsStableGame(g: GameVersion) { g.stable }

  /** `getLatestMinecraftVersion` after the fetch: the first stable game version, or `null`. */
  function LatestStableGame(games: seq<GameVersion>): (r: Option<GameVersion>)
    ensures r.None? <==> forall i :: 0 <= i < |games| ==> !games[i].stable
    ensures r.Some? ==> r.value.stable && (exists i :: 0 <= i < |games| && games[i] == r.value
                                             && forall j :: 0 <= j < i ==> !games[j].stable)
  {
    First(IsStableGame, games)
  }

  /** The end index JavaScript's `slice(0, end)` uses on a list of length `len`. */
  function SliceEnd(len: nat, end: int): (r: nat)
    ensures r <= len
    ensures end >= 0 ==> r == Min(end, len)
    ensures end < 0 ==> r == Max(len + end, 0)
  {
    if end < 0 then (if len + end < 0 then 0 else len + end)
    else if end < len then end else len
  }

  /** `getRecentMinecraftVersions(count)` after the fetch: `versions.filter(v => v.stable).slice(0, count)`. */
  function RecentStable(games: seq<GameVersion>, count: int := 3): (r: seq<GameVersion>)
    ensures |r| <= |Filter(IsStableGame, games)|
    ensures count >= 0 ==> |r| == Min(count, |Filter(IsStableGame, games)|)
    ensures r == Filter(IsStableGame, games)[..|r|]
    ensures forall k :: 0 <= k < |r| ==> r[k].stable
  {
    var stable := Filter(IsStableGame, games);
    stable[..SliceEnd(|stable|, count)]
  }

  /** The most recent stable version heads the recent list, whenever the list is asked for at least one. */
  lemma RecentStartsWithLatest(games: seq<GameVersion>, count: int)
    requires count >= 1
    ensures LatestStableGame(games).None? <==> RecentStable(games, count) == []
    ensures LatestStableGame(games).Some? ==> RecentStable(games, count)[0] == LatestStableGame(games).value
  {
    FilterEmpty(IsStableGame, games);
  }

  /** `getLatestMinecraftVersion` on the payload `getMinecraftVersions` returned. */
  function LatestGameOf(d: Data): (r: Result<Option<GameVersion>>)
    ensures d.GameList? ==> r == Ok(LatestStableGame(d.games))
    ensures !d.GameList? ==> r.Err?
  {
    match d
    case GameList(gs) => Ok(LatestStableGame(gs))
    case _ => Err(NotAList)
  }

  /** `getRecentMinecraftVersions` on the payload `getMinecraftVersions` returned. */
  function RecentGamesOf(d: Data, count: int): (r: Result<seq<GameVersion>>)
    ensures d.GameList? ==> r == Ok(RecentStable(d.games, count))
    ensures !d.GameList? ==> r.Err?
  {
    match d
    case GameList(gs) => Ok(RecentStable(gs, count))
    case _ => Err(NotAList)
  }

  class FabricMetaAPI {
    const cacheTtlHours: int
    var cache: map<string, Data>

    constructor (cacheTtlHoursSetting: Option<int>)
      ensures cacheTtlHours == OrDefault(cacheTtlHoursSetting, DefaultTtlHours)
      ensures cache == map[]
    {
      cacheTtlHours := OrDefault(cacheTtlHoursSetting, DefaultTtlHours);
      cache := map[];
    }

    /** `loadCache`; `file` is `None` when the cache file is missing or unreadable. */
    method LoadCache(file: Option<CacheFile>, now: int)
      modifies this`cache
      ensures file.None? ==> cache == old(cache)
      ensures file.Some? ==> cache == old(cache) + Fresh(file.value, now, TtlMs(cacheTtlHours))
    {
      if file.Some? {
        cache := Restore(cache, file.value, now, TtlMs(cacheTtlHours));
      }
    }

    /** `saveCache`: the file written at `now`. */
    method SaveCache(now: int) returns (file: CacheFile)
      ensures file.Keys == cache.Keys
      ensures forall k :: k in file ==> file[k].data == cache[k] && file[k].timestamp == now
    {
      file := Persist(cache, now);
    }

    /** The cache-or-fetch body shared by the two getters; `fallback` is their `[]`. */
    method CacheOrFetch(key: string, url: string, fallback: Data, fetch: string -> Result<Data>) returns (d: Data)
      modifies this`cache
      ensures (d, cache) == LookupOr(old(cache), key, url, fallback, fetch)
    {
      var cached := CachedValue(cache, key);
      if cached.Some? {
        return cached.value;
      }
      var response := fetch(url);
      if response.Err? {
        return fallback;
      }
      d := response.value;
      cache := cache[key := d];
    }

    method GetLoaderVersions(minecraftVersion: string, fetch: string -> Result<Data>) returns (d: Data)
      modifies this`cache
      ensures (d, cache) == LookupOr(old(cache), LoaderKey(minecraftVersion), LoaderUrl(minecraftVersion),
                                     LoaderList([]), fetch)
    {
      d := CacheOrFetch(LoaderKey(minecraftVersion), LoaderUrl(minecraftVersion), LoaderList([]), fetch);
    }

    method GetLatestStableLoader(minecraftVersion: string, fetch: string -> Result<Data>)
      returns (r: Result<Option<LoaderEntry>>)
      modifies this`cache
      ensures var (d, c) := LookupOr(old(cache), LoaderKey(minecraftVersion), LoaderUrl(minecraftVersion),
                                     LoaderList([]), fetch);
              cache == c && r == StableLoaderOf(d)
    {
      var versions := GetLoaderVersions(minecraftVersion, fetch);
      r := StableLoaderOf(versions);
    }

    method CheckLoaderUpdate(currentVersion: string, minecraftVersion: string, fetch: string -> Result<Data>,
                             newer: (string, string) -> bool)
      returns (r: Result<LoaderCheck>)
      modifies this`cache
      ensures var (d, c) := LookupOr(old(cache), LoaderKey(minecraftVersion), LoaderUrl(minecraftVersion),
                                     LoaderList([]), fetch);
              cache == c
              && (StableLoaderOf(d).Err? ==> r.Err?)
              && (StableLoaderOf(d).Ok? ==> r == Ok(LoaderCheckFor(currentVersion, StableLoaderOf(d).value, newer)))
    {
      var latest := GetLatestStableLoader(minecraftVersion, fetch);
      match latest
      case Err(m) => r := Err(m);
      case Ok(l) => r := Ok(LoaderCheckFor(currentVersion, l, newer));
    }

    method GetMinecraftVersions(fetch: string -> Result<Data>) returns (d: Data)
      modifies this`cache
      ensures (d, cache) == LookupOr(old(cache), GamesKey, GamesUrl, GameList([]), fetch)
    {
      d := CacheOrFetch(GamesKey, GamesUrl, GameList([]), fetch);
    }

    method GetLatestMinecraftVersion(fetch: string -> Result<Data>) returns (r: Result<Option<GameVersion>>)
      modifies this`cache
      ensures var (d, c) := LookupOr(old(cache), GamesKey, GamesUrl, GameList([]), fetch);
              cache == c && r == LatestGameOf(d)
    {
      var versions := GetMinecraftVersions(fetch);
      r := LatestGameOf(versions);
    }

    method GetRecentMinecraftVersions(fetch: string -> Result<Data>, count: int := 3) returns (r: Result<seq<GameVersion>>)
      modifies this`cache
      ensures var (d, c) := LookupOr(old(cache), GamesKey, GamesUrl, GameList([]), fetch);
              cache == c && r == RecentGamesOf(d, count)
    {
      var versions := GetMinecraftVersions(fetch);
      r := RecentGamesOf(versions, count);
    }
  }
}
