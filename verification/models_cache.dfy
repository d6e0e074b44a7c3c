/**
 * The model-catalog cache every provider's models service shares
 * (`BaseModelsService`): a list of model names kept for 24 hours under one
 * storage key. The provider's own fetch is a parameter: the outcome it would
 * have if it were called, consulted only when the cache is not used.
 */
module BaseModels {
  import opened Wrappers
  import opened Interfaces

  /** 24 hours in milliseconds. */
  const CacheDuration: int := 24 * 60 * 60 * 1000

  /** The stored entry: the names and when they were cached (epoch milliseconds). */
  datatype CachedModels = CachedModels(models: seq<string>, timestamp: int)

  /** The cache key's content: absent or empty, text that does not parse, or an entry. */
  datatype CacheSlot = NoCache | Unreadable | Cached(entry: CachedModels)

  /** What a call returns, what the cache holds afterwards, and whether the fetch path was taken (rather than the cache). */
  datatype Outcome = Outcome(result: Result<seq<string>, Error>, slot: CacheSlot, fetched: bool)

  /** `getCachedModels`: the entry, or nothing when the key is absent or unreadable. */
  function GetCachedModels(slot: CacheSlot): (r: Option<CachedModels>)
    ensures r.Some? <==> slot.Cached?
    ensures r.Some? ==> r.value == slot.entry
  {
    if slot.Cached? then Some(slot.entry) else None
  }

  /** `isCacheExpired`: more than 24 hours have passed since the timestamp. */
  function IsCacheExpired(timestamp: int, now: int): (r: bool)
    ensures r <==> now > timestamp + 86_400_000
  {
    now - timestamp > CacheDuration
  }

  /** An entry stays fresh for exactly 24 hours: at 24 hours it is used, one millisecond later it is not. */
  lemma ExpiryBoundary(timestamp: int)
    ensures !IsCacheExpired(timestamp, timestamp)
    ensures !IsCacheExpired(timestamp, timestamp + 86_400_000)
    ensures IsCacheExpired(timestamp, timestamp + 86_400_001)
  {
  }

  /** `cacheModels`: stores the list stamped with the current time. */
  function CacheModels(models: seq<string>, now: int): (r: CacheSlot)
    ensures GetCachedModels(r) == Some(CachedModels(models, now))
    ensures !IsCacheExpired(r.entry.timestamp, now)
  {
    Cached(CachedModels(models, now))
  }

  /** `clearCache`: removes the entry. */
  function ClearCache(slot: CacheSlot): (r: CacheSlot)
    ensures GetCachedModels(r).None?
  {
    NoCache
  }

  /**
   * What every provider's `fetchAndCacheModels` does with its fetch: on
   * success the list is cached, stamped now, and returned; on failure the
   * error propagates and the cache is left alone.
   */
  function FetchAndCache(slot: CacheSlot, fetch: Result<seq<string>, Error>, now: int): (r: Outcome)
    ensures r.fetched && r.result == fetch
    ensures fetch.Ok? ==> GetCachedModels(r.slot) == Some(CachedModels(fetch.value, now))
    ensures fetch.Err? ==> r.slot == slot
  {
    match fetch
    case Ok(models) => Outcome(fetch, CacheModels(models, now), true)
    case Err(_) => Outcome(fetch, slot, true)
  }

  /** `getModels`: the cached list while it is fresh, otherwise a fetch. */
  function GetModels(slot: CacheSlot, now: int, fetch: Result<seq<string>, Error>): (r: Outcome)
    ensures !r.fetched <==> slot.Cached? && !IsCacheExpired(slot.entry.timestamp, now)
    ensures !r.fetched ==> r.result == Ok(slot.entry.models) && r.slot == slot
    ensures r.fetched ==> r == FetchAndCache(slot, fetch, now)
  {
    match GetCachedModels(slot)
    case Some(cached) =>
      if !IsCacheExpired(cached.timestamp, now) then Outcome(Ok(cached.models), slot, false)
      else FetchAndCache(slot, fetch, now)
    case None => FetchAndCache(slot, fetch, now)
  }

  /** `refreshModels`: always a fetch, whatever the cache holds. */
  function RefreshModels(slot: CacheSlot, now: int, fetch: Result<seq<string>, Error>): (r: Outcome)
    ensures r.fetched && r.result == fetch
    ensures fetch.Ok? ==> GetCachedModels(r.slot) == Some(CachedModels(fetch.value, now))
  {
    FetchAndCache(slot, fetch, now)
  }

  /** A list cached now is what `getModels` returns now, without asking the provider. */
  lemma CacheThenGetHits(models: seq<string>, now: int, fetch: Result<seq<string>, Error>)
    ensures GetModels(CacheModels(models, now), now, fetch) == Outcome(Ok(models), CacheModels(models, now), false)
  {
  }

  /**
   * Once a `getModels` has fetched successfully, a second one within 24 hours
   * returns the same list without asking the provider, whatever it would
   * have answered.
   */
  lemma SecondGetWithinWindowHitsCache(slot: CacheSlot, t1: int, t2: int,
                                       fetch1: Result<seq<string>, Error>, fetch2: Result<seq<string>, Error>)
    requires fetch1.Ok? && GetModels(slot, t1, fetch1).fetched
    requires t1 <= t2 <= t1 + CacheDuration
    ensures var first := GetModels(slot, t1, fetch1);
      var second := GetModels(first.slot, t2, fetch2);
      && !second.fetched && second.result == first.result && second.slot == first.slot
  {
    var first := GetModels(slot, t1, fetch1);
    assert first.slot == CacheModels(fetch1.value, t1);
  }

  /** After `clearCache` the next `getModels` asks the provider. */
  lemma ClearThenGetFetches(slot: CacheSlot, now: int, fetch: Result<seq<string>, Error>)
    ensures GetModels(ClearCache(slot), now, fetch).fetched
    ensures GetModels(ClearCache(slot), now, fetch).result == fetch
  {
  }

  /** An entry that does not parse is treated exactly like no entry. */
  lemma UnreadableLikeMissing(now: int, fetch: Result<seq<string>, Error>)
    ensures GetModels(Unreadable, now, fetch).result == GetModels(NoCache, now, fetch).result
    ensures GetModels(Unreadable, now, fetch).fetched && GetModels(NoCache, now, fetch).fetched
  {
  }
}
