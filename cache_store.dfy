/**
 * The disk cache both registry clients keep (`loadCache` / `saveCache` in
 * modrinth-api.js and fabric-meta-api.js, identical in the two files). The
 * cache file maps each key to `{data, timestamp}`; loading keeps the entries
 * younger than the TTL, saving stamps every in-memory entry with the time of
 * the save. The file's contents are passed in and out as values and the clock
 * as a parameter.
 */
module CacheStore {
  import opened Common
  import opened Registry

  const MsPerHour: int := 60 * 60 * 1000

  /** The default `cacheTtlHours` of both clients. */
  const DefaultTtlHours: int := 24

  /** One record of the cache file. */
  datatype CacheEntry = CacheEntry(data: Data, timestamp: int)

  type CacheFile = map<string, CacheEntry>

  /** `cacheTtlHours * 60 * 60 * 1000`. */
  function TtlMs(ttlHours: int): int { ttlHours * MsPerHour }

  /** The entry is younger than the TTL at `now`. */
  predicate IsFresh(e: CacheEntry, now: int, ttlMs: int) {
    now - e.timestamp < ttlMs
  }

  /** The part of a cache file that survives loading at `now`. */
  function Fresh(file: CacheFile, now: int, ttlMs: int): map<string, Data> {
    map k | k in file && IsFresh(file[k], now, ttlMs) :: file[k].data
  }

  /** The cache file written at `now` from the in-memory cache. */
  function Stamped(cache: map<string, Data>, now: int): CacheFile {
    map k | k in cache :: CacheEntry(cache[k], now)
  }

  /**
   * The `forEach` of `loadCache`: every entry of the file younger than the TTL
   * is set into the in-memory cache; older entries are dropped and the other
   * keys of the cache keep their values.
   */
  method Restore(cache: map<string, Data>, file: CacheFile, now: int, ttlMs: int)
    returns (r: map<string, Data>)
    ensures forall k :: k in r <==> k in cache || (k in file && IsFresh(file[k], now, ttlMs))
    ensures forall k :: k in file && IsFresh(file[k], now, ttlMs) ==> r[k] == file[k].data
    ensures forall k :: k in cache && !(k in file && IsFresh(file[k], now, ttlMs)) ==> r[k] == cache[k]
    ensures r == cache + Fresh(file, now, ttlMs)
  {
    r := cache;
    var todo := file.Keys;
    while todo != {}
      invariant todo <= file.Keys
      invariant forall k :: k in r <==> k in cache || (k in file && k !in todo && IsFresh(file[k], now, ttlMs))
      invariant forall k :: k in file && k !in todo && IsFresh(file[k], now, ttlMs) ==> r[k] == file[k].data
      invariant forall k :: k in cache && !(k in file && k !in todo && IsFresh(file[k], now, ttlMs)) ==> r[k] == cache[k]
      decreases todo
    {
      var k :| k in todo;
      if now - file[k].timestamp < ttlMs {
        r := r[k := file[k].data];
      }
      todo := todo - {k};
    }
  }

  /** The `forEach` of `saveCache`: every in-memory entry, stamped with the one save time. */
  method Persist(cache: map<string, Data>, now: int) returns (file: CacheFile)
    ensures file.Keys == cache.Keys
    ensures forall k :: k in file ==> file[k].data == cache[k] && file[k].timestamp == now
    ensures file == Stamped(cache, now)
  {
    file := map[];
    var todo := cache.Keys;
    while todo != {}
      invariant todo <= cache.Keys
      invariant file.Keys == cache.Keys - todo
      invariant forall k :: k in file ==> file[k] == CacheEntry(cache[k], now)
      decreases todo
    {
      var k :| k in todo;
      file := file[k := CacheEntry(cache[k], now)];
      todo := todo - {k};
    }
  }

  /**
   * Saving re-stamps every entry: whatever the entries' ages were, a load
   * within one TTL of the save keeps all of them, and a load a full TTL or
   * more after the save keeps none.
   */
  lemma SaveThenLoad(cache: map<string, Data>, saved: int, now: int, ttlMs: int)
    ensures now - saved < ttlMs ==> Fresh(Stamped(cache, saved), now, ttlMs) == cache
    ensures now - saved >= ttlMs ==> Fresh(Stamped(cache, saved), now, ttlMs) == map[]
  {
    var f := Fresh(Stamped(cache, saved), now, ttlMs);
    if now - saved >= ttlMs {
      assert f.Keys == {};
    }
  }

  /** A cache saved at `t0` and loaded 25 hours later under the default TTL is empty. */
  lemma ExpiredAfterDefaultTtl(cache: map<string, Data>, t0: int)
    ensures Fresh(Stamped(cache, t0), t0 + 25 * MsPerHour, TtlMs(DefaultTtlHours)) == map[]
  {
    SaveThenLoad(cache, t0, t0 + 25 * MsPerHour, TtlMs(DefaultTtlHours));
  }

  /** `cache.get(key) || null`: the stored value when it is truthy, else `null`. */
  function CachedValue(cache: map<string, Data>, key: string): (r: Option<Data>)
    ensures r.Some? <==> key in cache && cache[key].Truthy()
    ensures r.Some? ==> r.value == cache[key]
  {
    if key in cache && cache[key].Truthy() then Some(cache[key]) else None
  }

  /** After `setCache(k, v)`: `getCached(k)` is `v` when `v` is truthy, else null; other keys are untouched. */
  lemma SetThenGet(cache: map<string, Data>, k: string, v: Data, other: string)
    requires other != k
    ensures CachedValue(cache[k := v], k) == (if v.Truthy() then Some(v) else None)
    ensures CachedValue(cache[k := v], other) == CachedValue(cache, other)
  {
  }
}
