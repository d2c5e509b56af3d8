/**
 * The Modrinth client of scripts/automation/utils/modrinth-api.js: a TTL disk
 * cache, a FIFO request queue drained in batches of at most `batchSize` by a
 * single drain loop guarded by `isProcessing`, cache-or-fetch lookups, and the
 * release-selection policy for mod updates. The network is an oracle `fetch`
 * from URL to response; the clock is a parameter.
 */
module ModrinthApi {
  import opened Common
  import opened Text
  import opened Seqs
  import opened Registry
  import opened CacheStore

  const ApiBase: string := "https://api.modrinth.com/v2"
  const DefaultBatchSize: int := 50
  const DefaultBatchDelayMs: int := 200

  type BatchSize = n: int | n > 0 witness 1

  /** The client's part of the script's `config.rateLimit`; an absent object is all `None`. */
  datatype RateLimit = RateLimit(batchSize: Option<nat>, batchDelayMs: Option<int>, cacheTtlHours: Option<int>)

  /** A queued GET request. */
  datatype QueuedRequest = QueuedRequest(url: string)

  /** One step of a drain: a batch of requests settled together, or the pause before the next batch. */
  datatype Step = Batch(requests: seq<QueuedRequest>) | Delay

  // ---------------------------------------------------------------------------
  // The drain schedule

  /** The steps the drain loop takes on queue `q` when nothing is added meanwhile. */
  function Schedule(q: seq<QueuedRequest>, size: BatchSize): seq<Step>
    decreases |q|
  {
    if |q| == 0 then []
    else if |q| <= size then [Batch(q)]
    else [Batch(q[..size]), Delay] + Schedule(q[size..], size)
  }

  /** The contents of the batches of a trace, in order. */
  function Batches(steps: seq<Step>): seq<seq<QueuedRequest>> {
    if |steps| == 0 then []
    else (if steps[0].Batch? then [steps[0].requests] else []) + Batches(steps[1..])
  }

  function Concat(bs: seq<seq<QueuedRequest>>): seq<QueuedRequest> {
    if |bs| == 0 then [] else bs[0] + Concat(bs[1..])
  }

  function DelayCount(steps: seq<Step>): nat {
    if |steps| == 0 then 0 else (if steps[0].Delay? then 1 else 0) + DelayCount(steps[1..])
  }

  /** Unfolding one full batch off a queue longer than a batch. */
  lemma ScheduleUnfold(q: seq<QueuedRequest>, size: BatchSize)
    requires |q| > size
    ensures Schedule(q, size) == [Batch(q[..size]), Delay] + Schedule(q[size..], size)
    ensures Batches(Schedule(q, size)) == [q[..size]] + Batches(Schedule(q[size..], size))
    ensures DelayCount(Schedule(q, size)) == 1 + DelayCount(Schedule(q[size..], size))
  {
    var s := Schedule(q, size);
    var t := Schedule(q[size..], size);
    assert s[1..] == [Delay] + t;
    assert s[1..][1..] == t;
  }

  /** One turn of the drain loop: a batch of `min(size, |q|)` requests, then a pause only if some remain. */
  lemma ScheduleStep(q: seq<QueuedRequest>, size: BatchSize)
    requires |q| > 0
    ensures var n := Min(size, |q|);
            Schedule(q, size) == [Batch(q[..n])] + (if n < |q| then [Delay] else []) + Schedule(q[n..], size)
  {
    if |q| <= size {
      assert q[..|q|] == q;
      assert q[|q|..] == [];
    }
  }

  /** The loop invariants of the drain survive one turn of it. */
  lemma DrainStep(orig: seq<QueuedRequest>, done: seq<QueuedRequest>, q: seq<QueuedRequest>, steps: seq<Step>, size: BatchSize)
    requires |q| > 0 && done + q == orig && steps + Schedule(q, size) == Schedule(orig, size)
    ensures var n := Min(size, |q|);
            && (done + q[..n]) + q[n..] == orig
            && (if n < |q| then steps + [Batch(q[..n])] + [Delay] else steps + [Batch(q[..n])])
               + Schedule(q[n..], size) == Schedule(orig, size)
  {
    var n := Min(size, |q|);
    assert q == q[..n] + q[n..];
    ScheduleStep(q, size);
  }

  /** The drain takes the requests in FIFO order, each exactly once. */
  lemma {:induction false} ScheduleFifo(q: seq<QueuedRequest>, size: BatchSize)
    ensures Concat(Batches(Schedule(q, size))) == q
    decreases |q|
  {
    if 0 < |q| <= size {
      var s := Schedule(q, size);
      assert Batches(s) == [q] by { assert Batches(s[1..]) == []; }
      assert Concat([q]) == q + Concat([]);
    } else if |q| > size {
      ScheduleUnfold(q, size);
      ScheduleFifo(q[size..], size);
      var bs := Batches(Schedule(q, size));
      assert bs[1..] == Batches(Schedule(q[size..], size));
      assert q == q[..size] + q[size..];
    }
  }

  /** Every batch holds between one and `size` requests, and all but the last exactly `size`. */
  lemma {:induction false} ScheduleBatchSizes(q: seq<QueuedRequest>, size: BatchSize)
    ensures forall k :: 0 <= k < |Batches(Schedule(q, size))| ==> 0 < |Batches(Schedule(q, size))[k]| <= size
    ensures forall k :: 0 <= k < |Batches(Schedule(q, size))| - 1 ==> |Batches(Schedule(q, size))[k]| == size
    decreases |q|
  {
    var s := Schedule(q, size);
    if 0 < |q| <= size {
      assert Batches(s) == [q] by { assert Batches(s[1..]) == []; }
    } else if |q| > size {
      ScheduleUnfold(q, size);
      ScheduleBatchSizes(q[size..], size);
      var t := Batches(Schedule(q[size..], size));
      forall k | 0 < k < |Batches(s)| ensures Batches(s)[k] == t[k - 1] { }
    }
  }

  /** There are ceil(|q| / size) batches: the count `c` is the one with `(c - 1) * size < |q| <= c * size`. */
  lemma {:induction false} ScheduleBatchCount(q: seq<QueuedRequest>, size: BatchSize)
    ensures |q| > 0 ==> (|Batches(Schedule(q, size))| - 1) * size < |q| <= |Batches(Schedule(q, size))| * size
    ensures |q| == 0 <==> |Batches(Schedule(q, size))| == 0
    decreases |q|
  {
    var s := Schedule(q, size);
    if 0 < |q| <= size {
      assert Batches(s) == [q] by { assert Batches(s[1..]) == []; }
    } else if |q| > size {
      ScheduleUnfold(q, size);
      ScheduleBatchCount(q[size..], size);
      var c := |Batches(Schedule(q[size..], size))|;
      assert |Batches(s)| == c + 1;
      assert (c + 1) * size == c * size + size;
      assert c * size == (c - 1) * size + size;
    }
  }

  /** Batches and delays alternate, starting and ending with a batch: one delay fewer than batches. */
  lemma {:induction false} ScheduleAlternates(q: seq<QueuedRequest>, size: BatchSize)
    ensures forall k :: 0 <= k < |Schedule(q, size)| ==> (Schedule(q, size)[k].Delay? <==> k % 2 == 1)
    ensures |q| > 0 ==> Schedule(q, size)[|Schedule(q, size)| - 1].Batch?
    ensures |q| > 0 ==> DelayCount(Schedule(q, size)) == |Batches(Schedule(q, size))| - 1
    decreases |q|
  {
    var s := Schedule(q, size);
    if 0 < |q| <= size {
      assert Batches(s) == [q] by { assert Batches(s[1..]) == []; }
      assert DelayCount(s) == 0 by { assert DelayCount(s[1..]) == 0; }
    } else if |q| > size {
      ScheduleUnfold(q, size);
      ScheduleAlternates(q[size..], size);
      var t := Schedule(q[size..], size);
      forall k | 2 <= k < |s| ensures s[k] == t[k - 2] { }
    }
  }

  // ---------------------------------------------------------------------------
  // Settling the queued promises

  /** Each request of `q` with the response the oracle gives its URL, in queue order. */
  function Settle(q: seq<QueuedRequest>, fetch: string -> Result<Data>): seq<(QueuedRequest, Result<Data>)> {
    seq(|q|, k requires 0 <= k < |q| => (q[k], fetch(q[k].url)))
  }

  // ---------------------------------------------------------------------------
  // Cache keys and URLs

  function ProjectKey(projectId: string): string { "project:" + projectId }
  function ProjectUrl(projectId: string): string { ApiBase + "/project/" + projectId }

  function VersionsKey(projectId: string, gameVersions: seq<string>, loaders: seq<string>): string {
    "versions:" + projectId + ":" + Join(gameVersions, ',') + ":" + Join(loaders, ',')
  }

  function VersionsUrl(projectId: string, gameVersions: seq<string>, loaders: seq<string>): string {
    ApiBase + "/project/" + projectId + "/version?game_versions="
    + EncodeUriComponent(JsonStrings(gameVersions)) + "&loaders=" + EncodeUriComponent(JsonStrings(loaders))
  }

  function VersionKey(versionId: string): string { "version:" + versionId }
  function VersionUrl(versionId: string): string { ApiBase + "/version/" + versionId }

  /**
   * Cache-or-fetch as `getProject`, `getProjectVersions` and `getVersion` do it:
   * the response and the cache afterwards. A hit returns the cached value; a
   * miss returns the oracle's response and stores it when it succeeded.
   */
  function Lookup(cache: map<string, Data>, key: string, url: string, fetch: string -> Result<Data>)
    : (r: (Result<Data>, map<string, Data>))
    ensures CachedValue(cache, key).Some? ==> r == (Ok(cache[key]), cache)
    ensures CachedValue(cache, key).None? && fetch(url).Ok? ==> r == (fetch(url), cache[key := fetch(url).value])
    ensures CachedValue(cache, key).None? && fetch(url).Err? ==> r == (fetch(url), cache)
  {
    match CachedValue(cache, key)
    case Some(d) => (Ok(d), cache)
    case None =>
      var resp := fetch(url);
      (resp, if resp.Ok? then cache[key := resp.value] else cache)
  }

  /** A second lookup of a key whose fetch gave a truthy value is a hit with the same value and changes nothing. */
  lemma LookupMemoizes(cache: map<string, Data>, key: string, url: string, fetch: string -> Result<Data>)
    requires Lookup(cache, key, url, fetch).0.Ok? && Lookup(cache, key, url, fetch).0.value.Truthy()
    ensures Lookup(Lookup(cache, key, url, fetch).1, key, url, fetch) == Lookup(cache, key, url, fetch)
  {
  }

  // ---------------------------------------------------------------------------
  // Release selection and per-mod results

  predicate IsRelease(v: Version) { v.versionType == Release }

  /**
   * `getLatestVersion` after the fetch: the first `release` entry in the order
   * the registry lists them (newest first), or null when there is none.
   */
  function LatestRelease(versions: seq<Version>): (r: Option<Version>)
    ensures r.None? <==> forall i :: 0 <= i < |versions| ==> versions[i].versionType != Release
    ensures r.Some? ==> exists i :: 0 <= i < |versions| && versions[i] == r.value
                          && versions[i].versionType == Release
                          && forall j :: 0 <= j < i ==> versions[j].versionType != Release
  {
    First(IsRelease, versions)
  }

  /** The mod the update check asks about. */
  datatype ModQuery = ModQuery(name: string, projectId: string, currentVersionId: string, gameVersions: seq<string>)

  datatype CurrentSummary = CurrentSummary(id: string, versionNumber: string, datePublished: string)
  datatype LatestSummary = LatestSummary(id: string, versionNumber: string, datePublished: string, changelog: string)

  /** An element of the array `batchGetLatestVersions` returns. */
  datatype ModResult =
    | Checked(projectId: string, modName: string, current: CurrentSummary, latest: Option<LatestSummary>,
              hasUpdate: bool, updateUrl: Option<string>)
    | Errored(projectId: string, modName: string, error: string)
  {
    /** The invariants every checked result keeps. */
    predicate WellFormed() {
      Checked? ==>
        && (hasUpdate <==> latest.Some? && latest.value.id != current.id)
        && (updateUrl.Some? <==> hasUpdate)
        && (updateUrl.Some? ==> updateUrl.value == UpdateUrl(projectId, latest.value.id))
    }
  }

  function UpdateUrl(projectId: string, versionId: string): string {
    "https://modrinth.com/mod/" + projectId + "/version/" + versionId
  }

  const NoChangelog: string := "No changelog provided"
  const NotAnArray: string := "versions.filter is not a function"
  const NotAVersion: string := "unexpected payload for a version"

  /** `getLatestVersion` on the payload `getProjectVersions` produced. */
  function LatestOf(versions: Result<Data>): (r: Result<Option<Version>>)
    ensures versions.Err? ==> r == Err(versions.message)
    ensures versions.Ok? && versions.value.VersionList? ==> r == Ok(LatestRelease(versions.value.versions))
  {
    match versions
    case Err(m) => Err(m)
    case Ok(VersionList(vs)) => Ok(LatestRelease(vs))
    case Ok(_) => Err(NotAnArray)
  }

  /**
   * The body of the loop of `batchGetLatestVersions` for one mod, given the
   * outcomes of its two lookups: a failure of either gives an error entry;
   * otherwise `hasUpdate` holds iff there is a latest release whose id differs
   * from the current one, and only then is there an update URL.
   */
  function ResultFor(mod: ModQuery, current: Result<Data>, latest: Result<Option<Version>>): (r: ModResult)
    ensures r.projectId == mod.projectId && r.modName == mod.name
    ensures r.WellFormed()
    ensures r.Checked? <==> current.Ok? && current.value.OneVersion? && latest.Ok?
    ensures r.Checked? ==> (r.current.id == current.value.version.id
                            && (r.latest.Some? <==> latest.value.Some?)
                            && (r.latest.Some? ==> r.latest.value.id == latest.value.value.id))
    ensures r.Checked? && r.latest.Some? ==>
              r.latest.value.changelog == (if latest.value.value.changelog == "" then NoChangelog else latest.value.value.changelog)
  {
    match current
    case Err(m) => Errored(mod.projectId, mod.name, m)
    case Ok(d) =>
      if !d.OneVersion? then Errored(mod.projectId, mod.name, NotAVersion)
      else
        match latest
        case Err(m) => Errored(mod.projectId, mod.name, m)
        case Ok(lv) =>
          var cur := d.version;
          var hasUpdate := lv.Some? && lv.value.id != cur.id;
          Checked(
            mod.projectId, mod.name,
            CurrentSummary(cur.id, cur.versionNumber, cur.datePublished),
            if lv.Some? then
              Some(LatestSummary(lv.value.id, lv.value.versionNumber, lv.value.datePublished,
                                 if lv.value.changelog == "" then NoChangelog else lv.value.changelog))
            else None,
            hasUpdate,
            if hasUpdate then Some(UpdateUrl(mod.projectId, lv.value.id)) else None)
  }

  // ---------------------------------------------------------------------------
  // The client

  class ModrinthAPI {
    const batchSize: BatchSize
    const batchDelayMs: int
    const cacheTtlHours: int
    var cache: map<string, Data>
    var requestQueue: seq<QueuedRequest>
    var isProcessing: bool
    /** The requests whose promises have settled, with their outcome, in the order they settled. */
    ghost var settled: seq<(QueuedRequest, Result<Data>)>

    constructor (config: RateLimit)
      ensures batchSize == OrDefault(config.batchSize, DefaultBatchSize)
      ensures batchDelayMs == OrDefault(config.batchDelayMs, DefaultBatchDelayMs)
      ensures cacheTtlHours == OrDefault(config.cacheTtlHours, DefaultTtlHours)
      ensures cache == map[] && requestQueue == [] && !isProcessing && settled == []
    {
      batchSize := OrDefault(config.batchSize, DefaultBatchSize);
      batchDelayMs := OrDefault(config.batchDelayMs, DefaultBatchDelayMs);
      cacheTtlHours := OrDefault(config.cacheTtlHours, DefaultTtlHours);
      cache := map[];
      requestQueue := [];
      isProcessing := false;
      settled := [];
    }

    /** `loadCache`; `file` is `None` when the cache file is missing or unreadable. */
    method LoadCache(file: Option<CacheFile>, now: int)
      modifies this`cache
      ensures file.None? ==> cache == old(cache)
      ensures file.Some? ==> cache == old(cache) + Fresh(file.value, now, TtlMs(cacheTtlHours))
    {
      if file.Some? {
        cache := Restore(cache, file.value, now, TtlMs(cacheTtlHours));
      }
    }

    /** `saveCache`: the file written at `now`. */
    method SaveCache(now: int) returns (file: CacheFile)
      ensures file.Keys == cache.Keys
      ensures forall k :: k in file ==> file[k].data == cache[k] && file[k].timestamp == now
    {
      file := Persist(cache, now);
    }

    function GetCached(key: string): (r: Option<Data>)
      reads this
      ensures r.Some? <==> key in cache && cache[key].Truthy()
      ensures r.Some? ==> r.value == cache[key]
    {
      CachedValue(cache, key)
    }

    method SetCache(key: string, value: Data)
      modifies this`cache
      ensures cache == old(cache)[key := value]
    {
      cache := cache[key := value];
    }

    /**
     * `processQueue`: a no-op when a drain is already running or the queue is
     * empty; otherwise drains the whole queue by the schedule, settling every
     * request exactly once with the oracle's response, and ends idle.
     */
    method ProcessQueue(fetch: string -> Result<Data>) returns (steps: seq<Step>)
      modifies this`requestQueue, this`isProcessing, this`settled
      ensures old(isProcessing) || old(requestQueue) == [] ==>
                steps == [] && requestQueue == old(requestQueue) && isProcessing == old(isProcessing)
                && settled == old(settled)
      ensures !old(isProcessing) ==>
                steps == Schedule(old(requestQueue), batchSize) && requestQueue == [] && !isProcessing
                && settled == old(settled) + Settle(old(requestQueue), fetch)
    {
      if isProcessing || |requestQueue| == 0 {
        return [];
      }
      isProcessing := true;
      steps := [];
      ghost var done: seq<QueuedRequest> := [];
      while |requestQueue| > 0
        invariant isProcessing
        invariant done + requestQueue == old(requestQueue)
        invariant steps + Schedule(requestQueue, batchSize) == Schedule(old(requestQueue), batchSize)
        invariant settled == old(settled) + Settle(done, fetch)
        decreases |requestQueue|
      {
        var n := Min(batchSize, |requestQueue|);
        var batch := requestQueue[..n];
        DrainStep(old(requestQueue), done, requestQueue, steps, batchSize);
        requestQueue := requestQueue[n..];
        // `Promise.all` over the batch: each request settles with its own response
        SettleAppend(done, batch, fetch);
        settled := settled + Settle(batch, fetch);
        done := done + batch;
        steps := steps + [Batch(batch)];
        if |requestQueue| > 0 {
          steps := steps + [Delay];
        }
      }
      isProcessing := false;
      assert done == old(requestQueue);
    }

    /**
     * `request`: queue the URL and start a drain. When no drain was running the
     * response is the oracle's; otherwise the running drain will settle it.
     */
    method Request(url: string, fetch: string -> Result<Data>) returns (r: Option<Result<Data>>)
      modifies this`requestQueue, this`isProcessing, this`settled
      ensures old(isProcessing) ==> r == None && requestQueue == old(requestQueue) + [QueuedRequest(url)]
                                    && isProcessing && settled == old(settled)
      ensures !old(isProcessing) ==> r == Some(fetch(url)) && requestQueue == [] && !isProcessing
                                     && settled == old(settled) + Settle(old(requestQueue) + [QueuedRequest(url)], fetch)
    {
      var wasProcessing := isProcessing;
      requestQueue := requestQueue + [QueuedRequest(url)];
      var _ := ProcessQueue(fetch);
      r := if wasProcessing then None else Some(fetch(url));
    }

    /** The cache-or-fetch shape shared by the three getters. */
    method CacheOrFetch(key: string, url: string, fetch: string -> Result<Data>) returns (r: Result<Data>)
      requires !isProcessing
      modifies this`cache, this`requestQueue, this`isProcessing, this`settled
      ensures (r, cache) == Lookup(old(cache), key, url, fetch)
      ensures !isProcessing
      ensures CachedValue(old(cache), key).Some? ==> requestQueue == old(requestQueue) && settled == old(settled)
      ensures CachedValue(old(cache), key).None? ==>
                requestQueue == [] && settled == old(settled) + Settle(old(requestQueue) + [QueuedRequest(url)], fetch)
    {
      var cached := GetCached(key);
      if cached.Some? {
        return Ok(cached.value);
      }
      var resp := Request(url, fetch);
      r := resp.value;
      if r.Ok? {
        SetCache(key, r.value);
      }
    }

    method GetProject(projectId: string, fetch: string -> Result<Data>) returns (r: Result<Data>)
      requires !isProcessing
      modifies this`cache, this`requestQueue, this`isProcessing, this`settled
      ensures (r, cache) == Lookup(old(cache), ProjectKey(projectId), ProjectUrl(projectId), fetch)
      ensures !isProcessing
    {
      r := CacheOrFetch(ProjectKey(projectId), ProjectUrl(projectId), fetch);
    }

    method GetProjectVersions(projectId: string, gameVersions: seq<string>, fetch: string -> Result<Data>,
                              loaders: seq<string> := ["fabric"])
      returns (r: Result<Data>)
      requires !isProcessing
      modifies this`cache, this`requestQueue, this`isProcessing, this`settled
      ensures (r, cache) == Lookup(old(cache), VersionsKey(projectId, gameVersions, loaders),
                                   VersionsUrl(projectId, gameVersions, loaders), fetch)
      ensures !isProcessing
    {
      r := CacheOrFetch(VersionsKey(projectId, gameVersions, loaders), VersionsUrl(projectId, gameVersions, loaders), fetch);
    }

    method GetVersion(versionId: string, fetch: string -> Result<Data>) returns (r: Result<Data>)
      requires !isProcessing
      modifies this`cache, this`requestQueue, this`isProcessing, this`settled
      ensures (r, cache) == Lookup(old(cache), VersionKey(versionId), VersionUrl(versionId), fetch)
      ensures !isProcessing
    {
      r := CacheOrFetch(VersionKey(versionId), VersionUrl(versionId), fetch);
    }

    method GetLatestVersion(projectId: string, gameVersions: seq<string>, fetch: string -> Result<Data>,
                            loaders: seq<string> := ["fabric"])
      returns (r: Result<Option<Version>>)
      requires !isProcessing
      modifies this`cache, this`requestQueue, this`isProcessing, this`settled
      ensures var (d, c) := Lookup(old(cache), VersionsKey(projectId, gameVersions, loaders),
                                   VersionsUrl(projectId, gameVersions, loaders), fetch);
              cache == c && r == LatestOf(d)
      ensures !isProcessing
    {
      var versions := GetProjectVersions(projectId, gameVersions, fetch, loaders);
      r := LatestOf(versions);
    }

    /**
     * `batchGetLatestVersions`: one result per mod, in input order; a mod whose
     * lookups fail gets an error entry and the loop goes on.
     */
    method BatchGetLatestVersions(mods: seq<ModQuery>, fetch: string -> Result<Data>) returns (results: seq<ModResult>)
      requires !isProcessing
      modifies this`cache, this`requestQueue, this`isProcessing, this`settled
      ensures |results| == |mods|
      ensures forall i :: 0 <= i < |mods| ==>
                results[i].projectId == mods[i].projectId && results[i].modName == mods[i].name
                && results[i].WellFormed()
      ensures !isProcessing
    {
      results := [];
      for i := 0 to |mods|
        invariant !isProcessing
        invariant |results| == i
        invariant forall k :: 0 <= k < i ==>
                    results[k].projectId == mods[k].projectId && results[k].modName == mods[k].name
                    && results[k].WellFormed()
      {
        var mod := mods[i];
        var current := GetVersion(mod.currentVersionId, fetch);
        var latest := GetLatestVersion(mod.projectId, mod.gameVersions, fetch);
        results := results + [ResultFor(mod, current, latest)];
      }
    }
  }

  lemma SettleAppend(a: seq<QueuedRequest>, b: seq<QueuedRequest>, fetch: string -> Result<Data>)
    ensures Settle(a + b, fetch) == Settle(a, fetch) + Settle(b, fetch)
  {
  }
}
