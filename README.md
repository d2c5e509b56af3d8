# lumo-optimized update automation and benchmark scripts, modelled in Dafny

This project models the Node.js update automation and the Python benchmark
scripts of the lumo-optimized Minecraft modpack, and proves properties of
the model.

- **Modrinth client** (`ModrinthApi`). It keeps a TTL disk cache and a FIFO
  request queue, which a single drain loop empties in batches of at most
  `batchSize`. It resolves each installed mod's newest release.
- **Fabric Meta client** (`FabricMetaApi`). It uses the same cache. It
  selects the newest stable loader build and the newest stable game
  versions, and decides whether the loader has an update.
- **packwiz helpers** (`PackwizParser`):
  - the listing of `.pw.toml` manifests and the extraction of their Modrinth metadata;
  - reading and rewriting the version pins of `pack.toml`;
  - the skip list of mods held back from updates.
- **Update check** (`CheckUpdates`). It chooses the mods to ask about, turns
  the answers into the `updates.json` record, and sets the exit code.
- **Update application** (`ApplyUpdates`). It installs each update. A mod
  whose install fails goes on the skip list for 48 hours. It pins the new
  loader and builds the commit message.
- **Compatibility validation** (`ValidateCompatibility`). There are three
  tiers:
  - Modrinth metadata;
  - one-hop dependencies;
  - the `packwiz refresh` outcome.

  The run passes when all three pass.
- **Benchmark log parsing** (`ParseBenchmark`):
  - the warnings and errors kept from the server log;
  - the spawn-area count;
  - the score, with its deductions and clamp.
- **Benchmark analysis** (`AnalyzeBenchmarks`):
  - the per-metric rankings, a stable sort;
  - the JSON summary;
  - the medal and top-five selections of the report.
- **Badges** (`GenerateBadge`): the colour bands and the badge messages.

Shared pieces:

- `Common`: `Option`, `Result`, JavaScript's rendering of a possibly-null
  string, and Python truthiness of a number.
- `Text`: substring search, split and join, Python `strip`, decimal
  rendering, and `encodeURIComponent`.
- `Seqs`: filtering.
- `Registry`: the records the two registries serve, and the union of cached
  payloads with JavaScript truthiness.
- `CacheStore`: the load and save of the cache file. This code is identical
  in the two clients.

These are modelled as parameters:

- **Time**: an integer count of milliseconds.
- **The network**: an oracle from URL to response or error.
- **`semver.gt`**: a parameter `newer`; the lemmas that need it assume a
  strict order.
- **The packwiz command**: an oracle from command line to output or error
  message.
- **Files** (cache files, the skip list, `pack.toml`, `updates.json`,
  `summary.json`): their parsed contents, passed in and out as values.
  `None` stands for a file that cannot be read.
- **Python floats**: Dafny `real`. **Float rendering in an f-string**: a
  parameter `render`.

The code reads and writes `modId` (packwiz-parser.js:153, 181, 185). The model follows
the code.

## Model

| member | source | states |
|---|---|---|
| CacheStore.Restore | scripts/automation/utils/modrinth-api.js:30-39 | After loading, a key is present iff it was already cached or the file holds it with `now - timestamp < ttl`. A kept entry's value is the stored `data` unchanged. Older entries are dropped. The same code is at fabric-meta-api.js:29-36. |
| CacheStore.Persist | scripts/automation/utils/modrinth-api.js:56-62 | The written file has exactly the cache's keys. Each key holds its cached data, stamped with the single save time. |
| CacheStore.SaveThenLoad | scripts/automation/utils/modrinth-api.js:30-62 | Saving re-stamps every entry. A load within one TTL of the save keeps the whole cache, whatever the entries' original ages. A load a full TTL or more later keeps nothing. |
| CacheStore.ExpiredAfterDefaultTtl | scripts/automation/utils/fabric-meta-api.js:15-36 | Under the default TTL of 24 hours, a cache loaded 25 hours after it was saved is empty. |
| CacheStore.CachedValue | scripts/automation/utils/modrinth-api.js:74-76 | `getCached` is the stored value iff the key is present with a truthy value, and `null` otherwise. |
| CacheStore.SetThenGet | scripts/automation/utils/modrinth-api.js:74-83 | After `setCache(k, v)`, `getCached(k)` is `v` when `v` is truthy and `null` when it is falsy. Every other key reads as before. |
| ModrinthApi.ModrinthAPI.constructor | scripts/automation/utils/modrinth-api.js:13-20 | The defaults are 50, 200 ms and 24 h, used when a setting is absent or 0. The cache and queue start empty, and the client is not processing. |
| ModrinthApi.ModrinthAPI.LoadCache | scripts/automation/utils/modrinth-api.js:25-47 | A missing file leaves the cache alone. Otherwise the fresh entries of the file are added over the cache. |
| ModrinthApi.ModrinthAPI.SaveCache | scripts/automation/utils/modrinth-api.js:52-69 | The file holds every cached entry, stamped with the save time. |
| ModrinthApi.ModrinthAPI.GetCached | scripts/automation/utils/modrinth-api.js:74-76 | The value is present iff the key is cached with a truthy value, and then it is that value. |
| ModrinthApi.ModrinthAPI.SetCache | scripts/automation/utils/modrinth-api.js:81-83 | The cache afterwards is the old cache with `key` mapped to `value`. |
| ModrinthApi.ModrinthAPI.ProcessQueue | scripts/automation/utils/modrinth-api.js:98-132 | A no-op when a drain is running or the queue is empty. Otherwise the steps taken are exactly `Schedule(queue, batchSize)`. Every queued request settles once, in queue order, with its oracle response. The queue ends empty and the flag false. |
| ModrinthApi.ModrinthAPI.Request | scripts/automation/utils/modrinth-api.js:88-93 | While a drain runs, the URL only joins the back of the queue. Otherwise the whole queue, this URL last, is drained and the response is the oracle's. |
| ModrinthApi.ScheduleFifo | scripts/automation/utils/modrinth-api.js:105-123 | The batches, concatenated, are the queue itself: FIFO, with each request taken exactly once. |
| ModrinthApi.ScheduleBatchSizes | scripts/automation/utils/modrinth-api.js:105-106 | Every batch holds between 1 and `batchSize` requests. All but the last hold exactly `batchSize`. |
| ModrinthApi.ScheduleBatchCount | scripts/automation/utils/modrinth-api.js:105-129 | N queued requests take exactly ⌈N / batchSize⌉ batches, and none when N = 0. |
| ModrinthApi.ScheduleAlternates | scripts/automation/utils/modrinth-api.js:126-128 | Batches and delays alternate, and the last step is a batch. There is one delay fewer than there are batches, so no delay follows the last batch. |
| ModrinthApi.Lookup | scripts/automation/utils/modrinth-api.js:137-186 | A hit returns the cached value and leaves the cache alone. A miss returns the oracle's response and stores it iff the request succeeded. |
| ModrinthApi.LookupMemoizes | scripts/automation/utils/modrinth-api.js:139-147 | A second lookup of a key whose first lookup gave a truthy value is a hit with the same value and state. |
| ModrinthApi.ModrinthAPI.CacheOrFetch | scripts/automation/utils/modrinth-api.js:174-186 | Result and cache follow `Lookup`. A hit queues and settles nothing. A miss drains the queue with this one extra request. |
| ModrinthApi.ModrinthAPI.GetProject | scripts/automation/utils/modrinth-api.js:137-149 | Cache-or-fetch under `project:<id>` from `/project/<id>`. |
| ModrinthApi.ModrinthAPI.GetProjectVersions | scripts/automation/utils/modrinth-api.js:154-169 | Cache-or-fetch under `versions:<id>:<games>:<loaders>`, from the URL with the URI-encoded JSON filters. |
| ModrinthApi.ModrinthAPI.GetVersion | scripts/automation/utils/modrinth-api.js:174-186 | Cache-or-fetch under `version:<id>` from `/version/<id>`. |
| ModrinthApi.LatestRelease | scripts/automation/utils/modrinth-api.js:199-206 | Null iff no version is a `release`. Otherwise it is the first release in provider order. |
| ModrinthApi.LatestOf | scripts/automation/utils/modrinth-api.js:195-207 | A failed fetch is passed on. A version list gives its latest release. A payload of another shape throws. |
| ModrinthApi.ModrinthAPI.GetLatestVersion | scripts/automation/utils/modrinth-api.js:195-207 | The versions lookup, then `LatestOf` on what it returned. |
| ModrinthApi.ResultFor | scripts/automation/utils/modrinth-api.js:218-249 | A failed lookup gives an error entry. Otherwise `hasUpdate` holds iff a latest release exists with a different id, and `updateUrl` is non-null iff `hasUpdate`. A missing changelog reads "No changelog provided". |
| ModrinthApi.ModrinthAPI.BatchGetLatestVersions | scripts/automation/utils/modrinth-api.js:214-254 | One result per mod, in input order, with that mod's id and name. Every result keeps the `hasUpdate`/`updateUrl` invariant. A failure does not stop the loop. |
| FabricMetaApi.FabricMetaAPI.constructor | scripts/automation/utils/fabric-meta-api.js:14-17 | `cacheTtlHours` defaults to 24, and the cache starts empty. |
| FabricMetaApi.FabricMetaAPI.LoadCache | scripts/automation/utils/fabric-meta-api.js:22-44 | A missing file leaves the cache alone. Otherwise the fresh entries are added. |
| FabricMetaApi.FabricMetaAPI.SaveCache | scripts/automation/utils/fabric-meta-api.js:49-66 | Every cached entry is stamped with the save time. |
| FabricMetaApi.LookupOr | scripts/automation/utils/fabric-meta-api.js:71-95 | A hit returns the cached value. A successful miss returns the response and stores it. A failed request returns `[]` and leaves the cache unchanged. |
| FabricMetaApi.FabricMetaAPI.CacheOrFetch | scripts/automation/utils/fabric-meta-api.js:72-94 | Value and new cache are those of `LookupOr`. |
| FabricMetaApi.FabricMetaAPI.GetLoaderVersions | scripts/automation/utils/fabric-meta-api.js:71-95 | Cache-or-fetch under `loader:<mc>`, falling back to `[]`. |
| FabricMetaApi.LatestStableLoader | scripts/automation/utils/fabric-meta-api.js:105-122 | Null iff no build is stable. Otherwise it is the first stable build, and its version contains none of `beta`, `alpha`, `rc`. |
| FabricMetaApi.StableLoaderOf | scripts/automation/utils/fabric-meta-api.js:102-123 | A list gives its latest stable build. A payload that is not a list throws. |
| FabricMetaApi.FabricMetaAPI.GetLatestStableLoader | scripts/automation/utils/fabric-meta-api.js:102-123 | The loader lookup, then `StableLoaderOf`. |
| FabricMetaApi.LoaderCheckFor | scripts/automation/utils/fabric-meta-api.js:131-156 | With no stable build: no update, and the error "No stable loader found". Otherwise `hasUpdate` is `newer(latest, current)`, with the build's version, build, maven and changelog URL. |
| FabricMetaApi.LoaderUpdateIsStrict | scripts/automation/utils/fabric-meta-api.js:143-146 | Under a strict order, a reported update names a different version, and never one that the current version is newer than. |
| FabricMetaApi.FabricMetaAPI.CheckLoaderUpdate | scripts/automation/utils/fabric-meta-api.js:131-156 | The loader lookup, then the check on the selected build. A payload of the wrong shape throws. |
| FabricMetaApi.LatestStableGame | scripts/automation/utils/fabric-meta-api.js:194-200 | Null iff no game version is stable. Otherwise it is the first stable one. |
| FabricMetaApi.SliceEnd | scripts/automation/utils/fabric-meta-api.js:214 | The end index that JavaScript `slice(0, count)` uses, for non-negative and negative `count`. |
| FabricMetaApi.RecentStable | scripts/automation/utils/fabric-meta-api.js:208-215 | A prefix of the stable versions, in order, of length min(count, #stable) for count ≥ 0. |
| FabricMetaApi.RecentStartsWithLatest | scripts/automation/utils/fabric-meta-api.js:190-215 | For count ≥ 1, the recent list is empty iff there is no latest stable version, and otherwise it starts with that version. |
| FabricMetaApi.LatestGameOf | scripts/automation/utils/fabric-meta-api.js:190-201 | A game list gives its first stable entry. Another payload throws. |
| FabricMetaApi.RecentGamesOf | scripts/automation/utils/fabric-meta-api.js:208-215 | A game list gives its recent stable entries. Another payload throws. |
| FabricMetaApi.FabricMetaAPI.GetMinecraftVersions | scripts/automation/utils/fabric-meta-api.js:161-185 | Cache-or-fetch under `minecraft:versions`, falling back to `[]`. |
| FabricMetaApi.FabricMetaAPI.GetLatestMinecraftVersion | scripts/automation/utils/fabric-meta-api.js:190-201 | The games lookup, then `LatestGameOf`. |
| FabricMetaApi.FabricMetaAPI.GetRecentMinecraftVersions | scripts/automation/utils/fabric-meta-api.js:208-215 | The games lookup, then `RecentGamesOf`. `count` defaults to 3. |
| PackwizParser.ModFiles | scripts/automation/utils/packwiz-parser.js:33-44 | An unreadable directory gives `[]`. Otherwise the result is the names ending in `.pw.toml`, in listing order, joined to the directory. |
| PackwizParser.ModFilesMember | scripts/automation/utils/packwiz-parser.js:36-38 | `dir/name` is listed iff `name` is in the listing and ends in `.pw.toml`. |
| PackwizParser.Basename | scripts/automation/utils/packwiz-parser.js:139 | The suffix of the path after its last `/`, containing no `/`. |
| PackwizParser.BasenameOfJoin | scripts/automation/utils/packwiz-parser.js:59-61 | The basename of `dir/name` is `name`. |
| PackwizParser.ModNameOfManifest | scripts/automation/utils/packwiz-parser.js:138-141 | For `dir/X.pw.toml`, where X holds no `/` and no `.pw.toml`, the mod name is X. |
| PackwizParser.SideOrBoth | scripts/automation/utils/packwiz-parser.js:65 | An absent or empty side means `both`. Otherwise the side is kept. |
| PackwizParser.CollectedExactly | scripts/automation/utils/packwiz-parser.js:54-71 | A record exists exactly for each file that parses and has `update.modrinth`, built from that file. Every record's side is non-empty. |
| PackwizParser.GetAllModsMetadata | scripts/automation/utils/packwiz-parser.js:50-75 | The scan collects the tracked manifests in file order. A manifest that fails to parse is skipped. |
| PackwizParser.NonEmpty | scripts/automation/utils/packwiz-parser.js:90-91 | `value \|\| null`: absent or empty becomes null. |
| PackwizParser.PackMetadataOf | scripts/automation/utils/packwiz-parser.js:81-99 | A read or parse failure is passed on. `mcVersion`/`fabricVersion` are null iff the table or key is absent or empty, and otherwise copy the pin. |
| PackwizParser.FindAssignment | scripts/automation/utils/packwiz-parser.js:112-115 | The leftmost match of `key\s*=\s*"[^"]+"`: no match starts earlier. None means no match anywhere. |
| PackwizParser.ReplaceAssignment | scripts/automation/utils/packwiz-parser.js:112-115 | With no match the text is unchanged. Otherwise only the leftmost match is replaced by `key = "value"`. |
| PackwizParser.RewrittenAssignmentMatches | scripts/automation/utils/packwiz-parser.js:112-122 | After the rewrite, the pattern matches the new assignment at the same place. This holds for a non-empty value without quotes. |
| PackwizParser.UpdatePackMetadata | scripts/automation/utils/packwiz-parser.js:105-131 | A pin is rewritten only when its update is truthy, the Minecraft pin first. With no truthy update the content is unchanged. |
| PackwizParser.IsModSkipped | scripts/automation/utils/packwiz-parser.js:149-165 | True iff some entry has this `modId` and either no `until` or `now < until`. |
| PackwizParser.ExpiredEntryIgnored | scripts/automation/utils/packwiz-parser.js:152-162 | An expired entry neither skips nor hides a later entry for the same mod. |
| PackwizParser.Without | scripts/automation/utils/packwiz-parser.js:181 | Keeps exactly the entries of other mods. |
| PackwizParser.AddToSkipList | scripts/automation/utils/packwiz-parser.js:173-197 | An unreadable list writes nothing. Otherwise the new entry is last and is the mod's only entry, and the other entries keep their order. |
| PackwizParser.AddedEntrySkips | scripts/automation/utils/packwiz-parser.js:180-190 | After adding, the mod is skipped until `until`, or indefinitely with none. |
| ValidateCompatibility.ApiIssuesFor | scripts/automation/validate-compatibility.js:53-75 | A failed lookup records one "Failed to validate" issue. Otherwise there is one issue per missing support. The "does not support MC" issue is present iff the version lacks the pack's Minecraft version, and the "does not support Fabric" issue iff it lacks the Fabric loader. When both are missing, the Minecraft issue comes first. There are no issues iff both are supported. |
| ValidateCompatibility.ApiCountFor | scripts/automation/validate-compatibility.js:56-71 | The count is the number of missing supports (0, 1 or 2) for a fetched version, and zero iff the lookup failed or the version is compatible. |
| ValidateCompatibility.ApiCountMatchesIssues | scripts/automation/validate-compatibility.js:56-75 | For a fetched version, the count equals the number of issues recorded. A failed lookup records one issue and counts none. |
| ValidateCompatibility.ApiTierPasses | scripts/automation/validate-compatibility.js:51-78 | Tier 1 passes iff every mod whose version could be fetched is compatible. A failed fetch adds an issue but does not fail the tier. There are at most 2 issues per mod. |
| ValidateCompatibility.CheckApi | scripts/automation/validate-compatibility.js:51-76 | The loop records `ApiIssues` and counts `ApiCount`. |
| ValidateCompatibility.FirstWithId | scripts/automation/validate-compatibility.js:111 | The first installed mod with the dependency's project id. |
| ValidateCompatibility.DepIssue | scripts/automation/validate-compatibility.js:96-116 | One issue iff the dependency is violated: a missing `required` one, or an installed `incompatible` one, which names the first installed match. Other kinds never record one. |
| ValidateCompatibility.DepIssuesEmpty | scripts/automation/validate-compatibility.js:95-118 | A mod's dependency issues are empty iff none of its dependencies is violated, and number at most its dependencies. |
| ValidateCompatibility.CheckDependenciesOf | scripts/automation/validate-compatibility.js:95-118 | The inner loop records `DepIssues` and counts each one. |
| ValidateCompatibility.DependencyTierPasses | scripts/automation/validate-compatibility.js:90-128 | Tier 2 passes iff no mod whose version could be fetched has a violated dependency. |
| ValidateCompatibility.CheckDependencies | scripts/automation/validate-compatibility.js:90-126 | The outer loop records `DependencyIssues`, and the count equals the issues. |
| ValidateCompatibility.IncompatibleExample | scripts/automation/validate-compatibility.js:94-116 | An installed B requires the absent A, and an installed C declares B incompatible. Tier 2 records exactly those two issues, in mod order. |
| ValidateCompatibility.BuildTier | scripts/automation/validate-compatibility.js:137-153 | Passes iff the refresh ran, even when stderr recorded an issue. A failure gives one "Packwiz refresh failed" issue. |
| ValidateCompatibility.Validate | scripts/automation/validate-compatibility.js:29-179 | An unreadable `pack.toml` gives exit code 1 with all flags false. Otherwise all three tiers run. Overall is their conjunction, and the exit code is 0 iff overall passes. |
| CheckUpdates.ModsToCheck | scripts/automation/check-updates.js:48-54 | A mod is checked iff it was scanned and is not skipped. |
| CheckUpdates.ModsToCheckKeepOrder | scripts/automation/check-updates.js:48-54 | The checked mods sit at increasing positions of the scan. |
| CheckUpdates.Queries | scripts/automation/check-updates.js:59-66 | One query per checked mod, carrying its ids and `[mcVersion]` as the game versions. |
| CheckUpdates.WithUpdates | scripts/automation/check-updates.js:69 | Exactly the results with `hasUpdate`. Error entries are never included. |
| CheckUpdates.UpdateOf | scripts/automation/check-updates.js:102-111 | Copies the ids and version numbers. The latest id always differs from the current one, and the URL points at it. |
| CheckUpdates.ModUpdates | scripts/automation/check-updates.js:102-111 | One element per result with an update, in order, each naming a different version. |
| CheckUpdates.FabricLoaderOf | scripts/automation/check-updates.js:112-116 | Null iff the loader check reports no update. Otherwise it copies the versions and changelog URL. |
| CheckUpdates.UpdatesOf | scripts/automation/check-updates.js:99-117 | The record: the pack's Minecraft version, the mod updates and the loader update. |
| CheckUpdates.TotalUpdates | scripts/automation/check-updates.js:129 | Zero iff there are no mod updates and no loader update. |
| CheckUpdates.UpdatesNameCheckedMods | scripts/automation/check-updates.js:59-111 | Every reported update names a project that was queried. |
| CheckUpdates.CheckForUpdates | scripts/automation/check-updates.js:16-144 | The exit code is 1 iff the pack is unreadable or the loader check throws, and then no record is written. The loader check throws exactly when the loader payload for the pack's Minecraft version is not a list. Otherwise the exit code is 0, with or without updates. The record is then `UpdatesOf` the pack's Minecraft version, the batch results and the loader check. The results are one well-formed answer per checked mod, in order. Every reported mod is installed and not skipped, and there are at most as many updates as checked mods. |
| ApplyUpdates.SkipListAfter | scripts/automation/apply-updates.js:40-69 | The skip list is written iff it could be read. |
| ApplyUpdates.InstallMods | scripts/automation/apply-updates.js:40-69 | The loop's skip list is `SkipListAfter`. A failed install never stops the others. |
| ApplyUpdates.NoFailureNoChange | scripts/automation/apply-updates.js:45-68 | With no failed install, the skip list is unchanged. |
| ApplyUpdates.FailedModSkipped | scripts/automation/apply-updates.js:56-68 | Every mod whose install failed is skipped throughout the next 48 hours, whatever the later installs did. |
| ApplyUpdates.ModLines | scripts/automation/apply-updates.js:140-142 | One `- name: cur → latest` line per mod, in order. |
| ApplyUpdates.GenerateCommitMessage | scripts/automation/apply-updates.js:122-158 | The pushed lines, joined by `\n`, are `CommitLines`. |
| ApplyUpdates.CommitTitle | scripts/automation/apply-updates.js:126-134 | The title is the mixed, "N mod(s)" or loader title by case, and the second line is empty. |
| ApplyUpdates.ModSectionLayout | scripts/automation/apply-updates.js:137-144 | With mods, lines 3 to 5+n are the header, a blank line, the mod lines in order and a blank line. |
| ApplyUpdates.SectionsPresentIff | scripts/automation/apply-updates.js:137-152 | The loader header appears iff there is a loader update, and the mods header iff there are mod updates. |
| ApplyUpdates.FooterLast | scripts/automation/apply-updates.js:155-157 | The last line is the `Co-Authored-By` footer, and the message ends with its `>` rather than a newline. |
| ApplyUpdates.MessageLines | scripts/automation/apply-updates.js:157 | Splitting the message at `\n` gives back its lines, when no field holds a line break. |
| ApplyUpdates.LoaderPinned | scripts/automation/apply-updates.js:73-87 | `pack.toml` is untouched without a loader update or a readable file. Otherwise the first `fabric = "…"` pin is rewritten to the loader's `latestVersion`; an empty version leaves the text unchanged. |
| ApplyUpdates.Apply | scripts/automation/apply-updates.js:18-116 | An unreadable `updates.json` gives exit 1. Zero updates gives exit 0 and touches nothing. Otherwise the mods are installed, the loader pinned, and the commit message returned. |
| AnalyzeBenchmarks.QualifyingExactly | scripts/analyze-benchmarks.py:42-64 | A pair enters a ranking iff its edition completed and the metric's value is truthy. It carries that value. |
| AnalyzeBenchmarks.SortedBy | scripts/analyze-benchmarks.py:67-70 | The result is ordered (non-increasing or non-decreasing) and is a permutation of the input. Equal values keep input order (stability). |
| AnalyzeBenchmarks.RankBy | scripts/analyze-benchmarks.py:67-70 | Sorting one metric's qualifying pairs gives its ranking: ordered in the metric's direction, a permutation of the pairs, and stable. |
| AnalyzeBenchmarks.CalculateRankings | scripts/analyze-benchmarks.py:33-72 | Each ranking is the stable sort of its qualifying pairs: tps and score descending, startup and memory ascending. |
| AnalyzeBenchmarks.Leader | scripts/analyze-benchmarks.py:237-240 | None iff the ranking is empty. |
| AnalyzeBenchmarks.LeaderIsBest | scripts/analyze-benchmarks.py:237-240 | The leader is a qualifying pair with the best value. Among its ties it is the first in results order. |
| AnalyzeBenchmarks.GenerateJsonSummary | scripts/analyze-benchmarks.py:232-254 | `best` holds each ranking's leader. Every loaded edition has an entry whatever its status, and each entry comes from a result. |
| AnalyzeBenchmarks.MedalFor | scripts/analyze-benchmarks.py:115-119 | No medal iff the edition is not in the top three of the score ranking. Otherwise the medal is the one for its first position there. |
| AnalyzeBenchmarks.TopFive | scripts/analyze-benchmarks.py:131-150 | At most five entries, the first ones of the ranking. |
| ParseBenchmark.EntryOf | scripts/parse-benchmark.py:123 | The stripped line's last min(200, length) characters. |
| ParseBenchmark.EntriesOfReported | scripts/parse-benchmark.py:114-123 | The entries are exactly the `/ERROR]` or `/WARN]` lines without a skip phrase, in log order, each cut down. |
| ParseBenchmark.ParseErrors | scripts/parse-benchmark.py:109-125 | The first 20 entries: at most 20, each at most 200 characters. |
| ParseBenchmark.ParseChunkLoading | scripts/parse-benchmark.py:95-106 | `chunks_loaded` stays null. The generated count is the number of positions at which "Preparing spawn area" occurs in the log, so it is positive iff the phrase occurs. |
| Text.CountIsOccurrences | scripts/parse-benchmark.py:103 | For a pattern whose first character does not recur, as in "Preparing spawn area", the left-to-right non-overlapping count of `re.findall` equals the number of positions where the pattern occurs. |
| ParseBenchmark.TpsPenalty | scripts/parse-benchmark.py:166-169 | Non-negative. Zero iff the TPS is falsy or at least 20. |
| ParseBenchmark.TickPenalty | scripts/parse-benchmark.py:171-174 | Non-negative. Zero iff the average tick is falsy or at most 50 ms. |
| ParseBenchmark.ErrorPenalty | scripts/parse-benchmark.py:176-177 | Non-negative. Zero iff there are no errors. |
| ParseBenchmark.RawScore | scripts/parse-benchmark.py:164-177 | Never above 100. |
| ParseBenchmark.Clamp | scripts/parse-benchmark.py:179 | In [0, 100], and the identity there. |
| ParseBenchmark.ComputeScore | scripts/parse-benchmark.py:164-179 | The successive deductions give the clamped raw score, in [0, 100]. |
| ParseBenchmark.PerfectScoreIff | scripts/parse-benchmark.py:164-179 | The score is 100 iff no deduction applies. |
| ParseBenchmark.MoreErrorsNeverHelp | scripts/parse-benchmark.py:176-179 | More errors never raise the score. |
| ParseBenchmark.ParseLog | scripts/parse-benchmark.py:128-179 | A missing log gives `no_logs`. Otherwise the errors are `parse_errors`' result and `error_count` is their number (≤ 20). The score follows the deductions. |
| GenerateBadge.ColorForScore | scripts/generate-badge.py:12-25 | Each colour holds exactly on its band: ≥90, [80,90), [70,80), [60,70), [50,60), <50. |
| GenerateBadge.ColorMonotone | scripts/generate-badge.py:12-25 | A higher score never gets a worse colour. |
| GenerateBadge.EditionMessage | scripts/generate-badge.py:68 | "N/A" iff the score is falsy. Otherwise it is the rendered score followed by "/100". |
| GenerateBadge.EditionBadge | scripts/generate-badge.py:65-70 | Labelled by the edition. A falsy score is red with "N/A". |
| GenerateBadge.EditionBadges | scripts/generate-badge.py:62-74 | Exactly one badge per edition of the summary. |
| GenerateBadge.BestBadgeAsWritten | scripts/generate-badge.py:45-53 | As written: the message names the stored best edition, which may be null. |
| GenerateBadge.BestBadgeAsWrittenShowsNone | scripts/generate-badge.py:45-51 | With a null best edition, the message is "None: 0/100", not the intended "unknown". |
| GenerateBadge.BestEdition | scripts/generate-badge.py:45 | A null best edition becomes "unknown". |
| GenerateBadge.BestBadge | scripts/generate-badge.py:45-53 | The message names `BestEdition` with its stored score. |
| GenerateBadge.BestBadgeNamesUnknown | scripts/generate-badge.py:45-53 | With no best edition, the corrected badge reads "unknown: 0/100" and is red. |
| GenerateBadge.NoScoredEditionMeansNone | scripts/analyze-benchmarks.py:237 | The summary's best overall edition is null iff no completed edition has a truthy score. |
| GenerateBadge.Badges | scripts/generate-badge.py:44-74 | With the best-edition badge corrected: the badge of `BestBadge` plus one badge per edition. Whenever the best edition is not null, this is the script's badge as written. |
| Text.DecimalString | scripts/automation/apply-updates.js:129 | `${n}` for a count: decimal digits, with a leading zero only for 0. |
| Text.DecimalRoundTrip | scripts/automation/apply-updates.js:129 | Reading the digits back gives the count. |

## Left out

- **I/O.** HTTP (axios), filesystem reads and writes, TOML and JSON parsing, console output, timestamps written into files, and `process.exit` beyond the exit codes.
- **Other scripts.** `download-mods.py` (downloads and hashing) and `astro.config.mjs` (site configuration) are not part of this model.
- **Concurrency.** `Promise.all` over a batch, the `setTimeout` delay between batches, and the two parallel lookups per mod are taken in sequence. Each request settles with its own oracle response, so the order within a batch is not modelled.
- **Clock.** Each run uses one instant for `now`. The source calls `Date.now()` and `new Date()` afresh each time.
- ModrinthApi.ModrinthAPI.BatchGetLatestVersions: the contract states one well-formed result per mod in order. It does not tie each result to the oracle's responses, which the cache makes depend on earlier iterations.
- **`semver.gt`.** Its internals are not modelled; it is the `newer` parameter.
- **Invalid version strings.** `semver.gt` throwing on an invalid version is not modelled.
- **Null versions.** A null `mcVersion` or `fabricVersion` goes into queries and messages as the text "null". The source sends JSON `[null]` in the query.
- **Batch size.** A negative `batchSize` setting is excluded by the `nat` type. In the source it would stall the drain.
- **`encodeURIComponent` and `JSON.stringify`.** They are modelled for ASCII text without characters that need JSON escaping. Non-ASCII characters are passed through unencoded.
- **`updatePackMetadata`.** `$` patterns in the replacement string are not interpreted. A failure to read `pack.toml` is modelled by the caller passing `None`.
- **`path.basename`.** Trailing separators are not handled.
- **Dates.** Skip-list dates are epoch milliseconds, not ISO strings. The 48-hour hold ignores daylight-saving shifts of `setHours`.
- **`getPackMetadata`.** `packFormat` and `index` are not modelled.
- **Loader check.** A `hasUpdate` that is not a boolean is not modelled.
- **Validation script.** It builds a dependency map that is never read; this is not modelled. Its cache load and save around the tiers are not modelled either. The cache load and save around `CheckForUpdates` are left out in the same way.
- **Apply run.** The final `packwiz refresh` of the apply run only logs its outcome and is left out.
- **Markdown report.** Only the medal and top-five selections are modelled, not the rest of the text.
- **Sorting.** Python's `sorted` (Timsort) is modelled by an insertion sort with the same contract: ordered, a permutation, and stable.
- **Benchmark parsing.**
  - Numbers read from the log by regular expressions are inputs.
  - `round(score, 1)` and float formatting are not modelled.
  - A present but null `tps` or `health` object, which raises in Python, is not modelled.
  - Memory in MB is a real, not an int.
- GenerateBadge.Badges: uses the corrected best-edition badge. On a summary whose best edition is null it gives "unknown: 0/100", where the script writes "None: 0/100" (see "## Findings"); `BestBadgeAsWritten` models the script's own output.
- **Badge messages.** Python's f-string rendering of a float is the parameter `render`. The best edition's score prints as `0`, `None` or the rendered value.

## Findings

| source | as written | input that shows it | evidently intended | confidence | as-written member | corrected member |
|---|---|---|---|---|---|---|
| scripts/generate-badge.py:45 | `summary.get("best", {}).get("overall", "unknown")`. The key is always present, so a null best edition stays `None` and the badge reads "None: 0/100". | A `summary.json` whose `best.overall` is null. `analyze-benchmarks.py:237` writes this whenever no completed edition has a truthy score. | The badge names "unknown": "unknown: 0/100". | not executed; medium | GenerateBadge.BestBadgeAsWrittenShowsNone | GenerateBadge.BestBadgeNamesUnknown |
